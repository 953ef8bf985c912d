# Pattern compiler and encoder of a Game-of-Life board

This project models the part of a terminal Game-of-Life program that reads
and writes pattern files, and proves properties of that model in Dafny.

A pattern file is a variant of the Life "RLE" format. It has three parts:

- comments;
- a header of comma-separated statements such as `x = 12`, `y = %(x*2)`,
  `rule = B3/S23` and `call print(...)`;
- a run-length body: `3o2b$bo!` means three live cells, two dead cells, a
  new row, one dead cell, one live cell, end.

Reading a file produces a rectangular board of cells. Writing does the
reverse: it turns a board into that text.

The model has these modules:

- `Text`: character classes and decimal conversions (`std::isdigit`,
  `std::stoi`, `std::to_string`).
- `Tokens` and `Lexing`: the lexer of src/rtl_parser.cpp.
  - `NextToken` says what one call of `lex()` returns.
  - `Tokenize` lists every token it hands out.
  - The class `Lexing.Lexer` holds the stream position and the stream's
    fail flag. Its methods, `GetChar` up to `Lex`, are proved to do what
    `NextToken` says.
- `Parsing`: the recursive-descent parser as functions on the parser's
  fields (`PState`). They take the token list and the index of the next
  token.
- `RtlParser`: the class `Parser`, one method per member function of the
  C++ class. Each method is proved to leave the parser in the state that
  the `Parsing` function of the same name describes. It also keeps the
  error count and the capped error printout consistent.
- `ParsingFacts`: lemmas about the parser. They cover what `expect`
  skips and reports, the effect of each kind of header statement (a
  number, a signed number, a sign before `%(...)`, a rule, and the last of
  two assignments winning), right-associative evaluation, the defaults and
  the empty file. The capped error printout is stated in `Parsing`
  (`PrintedCapped`).
- `Cursor`: the write cursor `Board::Position`, with `begin`, `end` and
  `++`.
- `Grids`: the grid as a value.
- `Boards`: the class `Board` of board.hpp and src/board.cpp. It covers the
  constructor, `set_rules`, `add_at`/`kill_at`, `iterate` with its
  neighbour count, and `dump_to_file`.
- `Encoding`: the text `dump_to_file` writes, as functions, and the class
  `LineWriter` for its three line-wrapping lambdas.
- `EncodingFacts`: the run-length body row by row. The pieces of a row
  stand for exactly its cells, and they are maximal: neighbouring runs
  have different markers, and a count is written only for two cells or
  more.
- `OutputLexing`: what the lexer of src/rtl_parser.cpp makes of the text
  `dump_to_file` writes. The header becomes its comment, assignment and
  rule tokens, every piece of the body becomes the tokens of its count and
  marker, and the line breaks of the layout vanish.
- `RoundTrip`: the round trip. A board written by `dump_to_file` and read
  back by `parse_stream` comes back with the same size and cells, and with
  no error or warning.

The earlier board.cpp defines `Board`'s constructor, `iterate`, `add_at`
and `kill_at` exactly as src/board.cpp does, so `Boards` models both files.

The earlier parser, rtl_parser.cpp at the root of the repository, has its
own modules:

- `LegacyLexing`: its `lex()`, which knows fewer characters. It reuses
  the stream of `Lexing`. Two inputs give no token at all:
  - an unknown character reaches `assert(0)` and aborts;
  - an `r` that does not start `rule`, with something after its letters,
    is put back and read again forever.
  `NextToken` and `Tokenize` describe `lex()`. The class `LegacyLexer`
  is proved to do what they say.
- `LegacyParsing`: the parser as functions on its fields (`LState`).
  - Its header has only `x`, `y` and `rule`.
  - `expect` reports one error and consumes nothing.
  - The board is always built and returned, however many errors there
    were.
  - The field `halt` records that the program stopped: `lex()` hung or
    aborted, or `std::stoi` threw. `ParseTokens` then reports only the
    stop.
- `LegacyRtlParser`: the class `Parser`, one method per member function.
  Each method is proved against the `LegacyParsing` function of the same
  name.
- `LegacyFacts`: lemmas about this parser. They cover what a size
  statement does when its `=` or its number is missing, rows longer than
  the board, the empty input, and the inputs that stop the program.

Neither parser calls `set_rules`, so the rules read from the header never
reach the board: every board they return has the rules B3/S23 of its
constructor.

Where the code leaves something undefined, the model makes a choice:

- The parser's error counter is never initialised; it is taken to start
  at 0.
- Division by zero in an expression is undefined behaviour; here it is
  reported as an error and gives 0.
- `dump_to_file` reads each cell as `*iter` but `Position` has no
  `operator*`; the cell at the cursor's row and column is read.

## Model

| member | source | states |
|---|---|---|
| Text.DigitValue | src/rtl_parser.cpp:616-617 | the value `c - '0'` of a digit is below 10 |
| Text.DigitChar | src/board.cpp:143-147 | the digit written for 0..9 is a digit whose value is that number |
| Text.NatToDecimal | src/board.cpp:179-180 | `std::to_string` of a natural number: non-empty, all digits, no leading zero, and `stoi` of it gives the number back |
| Text.IntToDecimal | src/board.cpp:141 | an `int` written to a stream: all digits exactly when it is non-negative, with a leading minus otherwise; reading the digits back gives the value (or its magnitude) |
| Text.DigitsValueAppend | src/rtl_parser.cpp:258-265 | the value of a digit run split in two is the value of the first part shifted by the length of the second, plus the second |
| Cursor.Next | board.hpp:47-55 | prefix `++` on a cursor within the row moves one step forward in row-major order, and stays in the row exactly when the next column exists |
| Cursor.PostIncrement | board.hpp:57-61 | postfix `++` returns the cursor as it was, and the cursor after it is one step forward |
| Cursor.EarlierRowSmallerIndex | board.hpp:47-55 | a cursor in an earlier row has a smaller row-major index |
| Cursor.IndexInjective | board.hpp:63-69 | two in-row cursors with the same index are equal, as `operator==` compares row and column only |
| Cursor.AdvanceFromBegin | board.hpp:47-78 | `n` increments from `begin()` reach the in-row cursor of index `n` |
| Cursor.BeginToEnd | board.hpp:47-84 | exactly `height * width` increments lead from `begin()` to `end()`, and before that every cell is visited once, in row-major order |
| Cursor.AtEndExactly | board.hpp:63-84 | the cursor loop `iter != end()` stops exactly after `height * width` increments |
| Cursor.AdvanceReaches | board.hpp:47-55 | cell `(row, col)` is reached after `row * width + col` increments |
| Grids.DeadCells | src/board.cpp:13-19 | `resize` gives `height` rows of `width` cells, all dead |
| Grids.SetCell | src/board.cpp:85-93 | the bounds-checked write sets exactly the addressed cell when it is on the board and changes nothing otherwise |
| Grids.SameCells | src/board.cpp:13-19 | two grids of the same shape with the same cells are the same grid |
| Boards.NeighbourCount | src/board.cpp:47-60 | the neighbour count is at most 8 |
| Boards.Step | src/board.cpp:64-82 | one generation computes every cell from the old grid only, by the survive test for live cells and the born test for dead ones, and keeps the shape |
| Boards.ClippedRow | src/board.cpp:51-57 | clipping the column loop to the board loses no live cell |
| Boards.ClippedWindow | src/board.cpp:48-59 | the clipped 3x3 window without its centre sums to the neighbour count |
| Boards.WriteSet | src/board.cpp:143-147 | writing a rule set writes its elements in ascending order, in decimal, with nothing between them |
| Boards.Board.constructor | src/board.cpp:13-21 | `height` rows of `width` dead cells, a buffer equal to them, survive {2, 3} and born {3}; the earlier board.cpp:10-24 does the same |
| Boards.Board.SetRules | board.hpp:17-20 | both rule sets are replaced and the cells are untouched |
| Boards.Board.AddAt | src/board.cpp:85-88 | the addressed cell becomes alive if it is on the board; nothing else changes; the same for the earlier board.cpp:82-85 |
| Boards.Board.KillAt | src/board.cpp:90-93 | the addressed cell becomes dead if it is on the board; nothing else changes; the same for the earlier board.cpp:87-90 |
| Boards.Board.AddAtPosition | board.hpp:86-88 | the same as `add_at(row, col)` at the cursor's row and column |
| Boards.Board.KillAtPosition | board.hpp:90-92 | the same as `kill_at(row, col)` at the cursor's row and column |
| Boards.Board.CountNeighbours | src/board.cpp:30-61 | the two clipped loops count exactly the live neighbours of the cell; the same for the earlier board.cpp:45-56 |
| Boards.Board.Iterate | src/board.cpp:29-83 | the cells become the next generation of the old cells; the buffer ends equal to them; the rules are kept; the same for the earlier board.cpp:26-80 |
| Boards.Board.WriteHeader | src/board.cpp:140-148 | the comment line and `x = W, y = H, rule = B<born>/S<survives>` |
| Boards.Board.WriteCell | src/board.cpp:197-205 | one turn of the cursor loop: `$` on reaching a row other than the first, then the marker of the cell |
| Boards.Board.WriteCells | src/board.cpp:197-205 | the cursor loop hands `out_marker` the marker of every cell in row-major order, with `$` before each row but the first |
| Boards.Board.DumpToText | src/board.cpp:138-208 | everything `dump_to_file` writes: the header, then the run-length body laid out in lines, then a newline |
| Boards.EmptyStaysEmpty | src/board.cpp:64-82 | a board with no live cell stays empty after `iterate` exactly when 0 is not a born count |
| Boards.LoneCellDies | src/board.cpp:64-78 | a live cell with no live neighbour lives on exactly when 0 is a survive count |
| Encoding.RunLengthSnoc | src/board.cpp:174-195 | the run-length encoding of one more marker is the encoding so far followed by one `out_marker` step |
| Encoding.MarkersUpToStep | src/board.cpp:197-205 | the `n`-th cursor of the loop is on the board, and its markers follow those of the cells before it |
| Encoding.SetMin | src/board.cpp:143-147 | iteration over a non-empty `std::set<int>` starts at its least element |
| Encoding.LineWriter.constructor | src/board.cpp:150-172 | an empty line, nothing pending, nothing written |
| Encoding.LineWriter.OutChar | src/board.cpp:153-160 | `out_char` adds one write to the layout: a new line first only once the line is already longer than 80 |
| Encoding.LineWriter.OutString | src/board.cpp:162-169 | `out_string` adds one write to the layout: a new line first whenever the string would take the line past 80 |
| Encoding.LineWriter.OutMarker | src/board.cpp:174-195 | `out_marker` keeps the writes equal to the run-length encoding of every marker handed to it |
| Encoding.LineWriter.MarkerWrites | src/board.cpp:174-195 | the writes `out_marker(c)` makes and the run it leaves pending are those of `MarkerStep` |
| Encoding.LineWriter.FlushRun | src/board.cpp:177-183 | a pending run is written as `<count><marker>` for a count above 1, as the bare marker for 1, and not at all for 0 |
| EncodingFacts.ClosedExpands | src/board.cpp:174-195 | the pieces a row is encoded into are runs that stand for exactly the row's cells, in order |
| EncodingFacts.RunsExpand | src/board.cpp:174-195 | for `o` and `b` markers, the pieces written so far and the pending run stand for exactly the markers handed in |
| EncodingFacts.ClosedMaximal | src/board.cpp:174-195 | the pieces of a row are maximal: neighbouring runs have different markers, and a counted run stands for at least two cells |
| EncodingFacts.RunsMaximal | src/board.cpp:174-195 | while markers are handed in, the pieces written are maximal, a run is pending, and its marker differs from that of the last piece written |
| EncodingFacts.FlushPiece | src/board.cpp:177-183 | a pending run of one cell or more is written as one piece of its marker and count |
| EncodingFacts.FlushExpands | src/board.cpp:177-183 | writing a pending run gives run pieces for exactly its cells |
| EncodingFacts.MarkersByRows | src/board.cpp:197-205 | the markers of the first `r * width` cells of the cursor loop are those of the first `r` rows |
| EncodingFacts.BodyPiecesByRows | src/board.cpp:197-206 | the body is the runs of the first row, then a `$` and the runs of each later row, then `!` |
| OutputLexing.EncodedTokens | src/board.cpp:138-208 | the lexer reads the written text as the header tokens followed by the tokens of every piece of the body; the line breaks of the layout vanish |
| OutputLexing.HeaderTokensAre | src/board.cpp:140-148 | the header lines are read as the comment, `x = W`, `y = H` and `rule = B…/S…` tokens |
| OutputLexing.RuleDigits | src/board.cpp:143-147 | the rule written for a non-empty set of non-negative numbers is a non-empty run of digits |
| RoundTrip.EncodeThenParse | src/board.cpp:138-208 | the round trip: the text written for a board at least one cell each way, read back by `parse_stream` (src/rtl_parser.cpp:782-792), gives a board of the same height, width and cells, and not a single error or warning |
| RoundTrip.ParseLaidOut | src/rtl_parser.cpp:782-792 | tokens laid out as the encoder lays them out parse to the board they describe, with no error or warning |
| RoundTrip.HeaderRead | src/rtl_parser.cpp:466-511 | the written header: the size comes back from `x` and `y`, the rule sets are not empty, nothing is reported, and the dead board of that size is set up with the cursor at its first cell |
| RoundTrip.PatternParse | src/rtl_parser.cpp:625-648 | the written body, from the dead board: every row is drawn and `!` ends the section without a report |
| RoundTrip.RowsParse | src/rtl_parser.cpp:630-640 | each `$` finds the cursor at the start of its row and each line draws its row |
| RoundTrip.RunParse | src/rtl_parser.cpp:656-674 | the tokens of one run write the cells it stands for at the cursor, with no report |
| RoundTrip.RunsParse | src/rtl_parser.cpp:650-654 | the runs of a row are written in turn, and the loop stops at the `$` or `!` after them |
| RoundTrip.BodyTokens | src/board.cpp:197-206 | the tokens of the body are those of the first row's runs, then of each later row after its `$`, then `!` |
| Lexing.WordEnd | src/rtl_parser.cpp:159-170 | `get_word` stops at the first character that is neither a letter nor `_` |
| Lexing.DigitEnd | src/rtl_parser.cpp:259-265 | the number branch stops at the first non-digit |
| Lexing.Find | src/rtl_parser.cpp:237-246 | the first position holding the character, or the end of the input |
| Lexing.AfterScan | src/rtl_parser.cpp:159-170 | putting back the character that ended a scan does nothing once the read hit the end of the input |
| Lexing.LetterToken | src/rtl_parser.cpp:187-208 | a token starting with a letter or `_` consumes input and is never `eof` |
| Lexing.SymbolToken | src/rtl_parser.cpp:210-290 | a token starting with any other non-blank character consumes input and is never `eof` |
| Lexing.TokenAt | src/rtl_parser.cpp:183-290 | every token starting at a non-blank character consumes input |
| Lexing.NextToken | src/rtl_parser.cpp:178-291 | one `lex()`: blanks are skipped, every token but `eof` consumes input, and `eof` leaves the stream failed at the end |
| Lexing.Tokenize | src/rtl_parser.cpp:178-291 | the tokens handed out before the first `eof` contain no `eof` |
| Lexing.Streams | src/rtl_parser.cpp:178-291 | the streams before each token start at the given stream |
| Lexing.TableOf | src/rtl_parser.cpp:431-436 | successive calls of `lex()` hand out `Tokenize`'s tokens in order, then `eof` for ever |
| Lexing.TableStep | src/rtl_parser.cpp:433 | from the stream before token `n`, `lex()` yields token `n` and the stream after it, and `eof` once all are read |
| Lexing.LetterTokenShape | src/rtl_parser.cpp:187-208 | `b`, `o`, `s` in either case are single-letter tokens; a word is a whole run of letters and `_`, `call` the keyword and any other word an identifier |
| Lexing.NumberTokenShape | src/rtl_parser.cpp:248-266 | a number token is a whole run of digits |
| Lexing.CommentTokenShape | src/rtl_parser.cpp:267-268 | a comment starts with `#` and holds no newline |
| Lexing.StringTokenShape | src/rtl_parser.cpp:235-246 | a quote starts a string of the text up to the next equal quote, with the stream just past it; with no such quote the token is `_STRING_ERROR` with an empty text and the stream failed at the end |
| Lexing.SymbolTokenShape | src/rtl_parser.cpp:210-290 | a punctuation token is its own character; a string is the text between two equal quotes, none of that quote inside, with the stream just past the closing one; an unterminated string is `_STRING_ERROR` with an empty text and the stream failed at the end; numbers, comments and error tokens have the shape of their kind |
| Lexing.TokenShape | src/rtl_parser.cpp:178-291 | every token has the shape of its kind (words, numbers, comments, punctuation, strings, unterminated strings and error tokens); `_X`, `_Y` and `_RULE` are never produced and no identifier starts with `b`, `o` or `s` |
| Lexing.Lexer.constructor | src/rtl_parser.cpp:173-176 | nothing read yet |
| Lexing.Lexer.GetChar | src/rtl_parser.cpp:117-128 | the next character, or `eof` with the fail flag set at the end of the input |
| Lexing.Lexer.UngetChar | src/rtl_parser.cpp:130-148 | steps back one character unless the fail flag is set |
| Lexing.Lexer.GetLine | src/rtl_parser.cpp:150-157 | the rest of the line, the newline read and dropped |
| Lexing.Lexer.GetWord | src/rtl_parser.cpp:159-170 | the run of letters and `_`, the character after it put back |
| Lexing.Lexer.GetDigits | src/rtl_parser.cpp:259-265 | the run of digits, the character after it put back |
| Lexing.Lexer.GetString | src/rtl_parser.cpp:235-247 | the text up to the matching quote, or `_STRING_ERROR` at the end of the input |
| Lexing.Lexer.LexLetter | src/rtl_parser.cpp:187-208 | the letter and word branches of `lex()` |
| Lexing.Lexer.LexSymbol | src/rtl_parser.cpp:210-290 | the switch on the other characters of `lex()` |
| Lexing.Lexer.Lex | src/rtl_parser.cpp:178-291 | `lex()` returns the token `NextToken` specifies and leaves the stream where it says |
| Lexing.Lexer.SkipBlanks | src/rtl_parser.cpp:284-289 | blanks and newlines are read past; what follows is the first other character or the end, and `lex()` from there is `lex()` from the start |
| Parsing.ReportError | src/rtl_parser.cpp:736-752 | `error` adds one to the count and changes nothing else |
| Parsing.ReportWarning | src/rtl_parser.cpp:754-763 | `warning` is logged and never counted |
| Parsing.LogSnoc | src/rtl_parser.cpp:740-751 | one more error or warning appends exactly the line `error`/`warning` writes at that count |
| Parsing.PrintedCapped | src/rtl_parser.cpp:736-752 | of `n` errors, the first four are printed, one "max error count exceeded" line follows when there are more, and the rest print nothing; every warning is printed |
| Parsing.NextSymbol | src/rtl_parser.cpp:431-443 | `next_symbol` never reads a token twice, keeps the error count counting the errors reported, moves strictly forward before `eof`, and leaves values, rules, board and cursor alone |
| Parsing.Shift | src/rtl_parser.cpp:433-436 | reading a token changes no error count |
| Parsing.TokenError | src/rtl_parser.cpp:441-454 | the state changes exactly when the current symbol is one of the lexer's two error tokens |
| Parsing.Accept | src/rtl_parser.cpp:394-400 | `accept` succeeds exactly when the symbol is current, and then reads the next one; otherwise it changes nothing |
| Parsing.Expect | src/rtl_parser.cpp:413-421 | with resynchronisation: success without an error when the symbol is current, failure only at `eof`, and at least one error for every skipped token |
| Parsing.TruncDiv | src/rtl_parser.cpp:726-727 | C++ `/`: the remainder is smaller than the divisor in magnitude and has the sign of the dividend |
| Parsing.Operand | src/rtl_parser.cpp:701-723 | an operand moves forward and leaves rules, board and cursor alone |
| Parsing.Lookup | src/rtl_parser.cpp:702-708 | the variable is bound afterwards and its value is the result; the state is unchanged exactly when it was already bound |
| Parsing.Nested | src/rtl_parser.cpp:709-720 | the sign or bracket after an operand moves forward and leaves rules, board and cursor alone |
| Parsing.Apply | src/rtl_parser.cpp:724-731 | an operator reports an error exactly for a zero divisor |
| Parsing.MathExpression | src/rtl_parser.cpp:700-733 | an expression moves forward and leaves rules, board and cursor alone |
| Parsing.Operator | src/rtl_parser.cpp:724-732 | the operator part moves forward and leaves rules, board and cursor alone |
| Parsing.ExpressionValue | src/rtl_parser.cpp:676-686 | `%(...)` consumes its `%` when current and leaves rules, board and cursor alone |
| Parsing.RuleHalf | src/rtl_parser.cpp:614-617 | one half of a rule changes nothing but the reading fields and the error count; the set it returns holds the numbers `c - '0'` of the characters of the text read last, and after the letter `k` and a number token they are the digits of that number, two tokens on |
| Parsing.RuleDescription | src/rtl_parser.cpp:613-623 | a rule changes only the rule sets: the survive set gains the numbers `c - '0'` of the text read last and the born set only grows; after `B` and a number the born set gains exactly that number's digits (both halves of `B<n>/S<m>`: `ParsingFacts.RuleStatement`) |
| Parsing.SurvivePart | src/rtl_parser.cpp:618-622 | the survive half leaves the born set, values, board and cursor alone and adds to the survive set exactly the numbers `c - '0'` of the text read last |
| Parsing.UnaryErrors | src/rtl_parser.cpp:576-579 | one error for a minus and one for a plus before `%(...)`, nothing else |
| Parsing.Sign | src/rtl_parser.cpp:569-572 | at most one sign is read, and it is read exactly when it is current |
| Parsing.AssignedValue | src/rtl_parser.cpp:566-583 | a number is worth `stoi` of its text; a sign followed by a number gives that value, negated after a minus; a sign followed by anything else adds an error; rules, board and cursor are untouched |
| Parsing.Unsigned | src/rtl_parser.cpp:573-581 | after the sign, a number is worth `stoi` of its text and is read; anything else reports at least one error for each sign read before it; rules, board and cursor are untouched |
| Parsing.ValueDescription | src/rtl_parser.cpp:559-585 | for `name =`, the name `rule` reads a rule description and any other name an assignment to it; the rule sets only grow; board and cursor are untouched |
| Parsing.Assignment | src/rtl_parser.cpp:566-584 | the name is bound afterwards, to `stoi` of a number or its negation after a minus, replacing any earlier binding; rules, board and cursor are unchanged |
| Parsing.PrintItem | src/rtl_parser.cpp:542-551 | one argument of `print` leaves rules, board and cursor alone |
| Parsing.PrintItems | src/rtl_parser.cpp:541-552 | the argument list ends at a symbol other than `,` |
| Parsing.Print | src/rtl_parser.cpp:534-557 | `print` leaves rules, board and cursor alone |
| Parsing.FunctionCall | src/rtl_parser.cpp:520-532 | a call leaves rules, board and cursor alone |
| Parsing.Statement | src/rtl_parser.cpp:513-518 | a statement only adds to the rule sets |
| Parsing.Statements | src/rtl_parser.cpp:473-474 | the statement list ends at a symbol other than `,` |
| Parsing.Dimension | src/rtl_parser.cpp:480-492 | `x` or `y` is the value assigned, or 10 with a warning |
| Parsing.HeaderDefaults | src/rtl_parser.cpp:480-498 | the defaults add only warnings and rules, and leave both rule sets non-empty |
| Parsing.DimensionChecks | src/rtl_parser.cpp:499-510 | no error exactly when both dimensions are at least 1, and then the board `Board(y, x)` with all cells dead and the cursor at `begin()` |
| Parsing.HeaderChecks | src/rtl_parser.cpp:478-510 | without a new error, the board exists and the cursor is at `begin()` |
| Parsing.HeaderSection | src/rtl_parser.cpp:470-511 | after a header without errors the board exists and the cursor is on it |
| Parsing.Comments | src/rtl_parser.cpp:466-468 | comments are skipped and nothing but the token position and error count changes |
| Parsing.Fill | src/rtl_parser.cpp:666-672 | `n` writes at the advancing cursor keep the board's shape and the cursor on a column |
| Parsing.FillEffect | src/rtl_parser.cpp:666-672 | `n` writes move the cursor `n` cells forward and set exactly the cells passed to the value written |
| Parsing.FinishLine | src/rtl_parser.cpp:765-775 | `finnish_line` keeps the board's shape |
| Parsing.FinishLineEffect | src/rtl_parser.cpp:765-775 | `finnish_line` does nothing at column 0; otherwise it kills exactly the rest of the row and leaves the cursor at the start of the next row |
| Parsing.RestOfRow | src/rtl_parser.cpp:770-773 | the cells from the cursor to the end of its row are those of the next `width - col` indices |
| Parsing.Put | src/rtl_parser.cpp:666-672 | writing cells changes only the board and the cursor, and keeps the board's size |
| Parsing.Run | src/rtl_parser.cpp:665-673 | a run keeps the board's size and moves forward |
| Parsing.Pattern | src/rtl_parser.cpp:656-674 | a pattern keeps the board's size and moves forward |
| Parsing.MorePatterns | src/rtl_parser.cpp:652-653 | the pattern loop ends at a symbol that starts no pattern |
| Parsing.LinePattern | src/rtl_parser.cpp:650-654 | a line keeps the board's size and moves forward |
| Parsing.CloseRow | src/rtl_parser.cpp:631-636 | the row check and `finnish_line` read no token and keep the board's size |
| Parsing.Rows | src/rtl_parser.cpp:630-640 | the row loop ends at a symbol other than `$` |
| Parsing.PatternSection | src/rtl_parser.cpp:625-648 | skipped entirely once an error was counted; otherwise it keeps the board's size |
| Parsing.RtlFile | src/rtl_parser.cpp:460-464 | after a file without errors the board exists |
| Parsing.InitialState | src/rtl_parser.cpp:387-392 | the parser starts with nothing read and no errors |
| Parsing.ParseTokens | src/rtl_parser.cpp:782-792 | a board is returned exactly when no error was reported, and then it is well shaped and at least one cell wide |
| Parsing.ParseStream | src/rtl_parser.cpp:782-792 | a board is returned exactly when no error was reported |
| ParsingFacts.ShiftOrdinary | src/rtl_parser.cpp:431-443 | reading a token that is not an error token makes it current and reports nothing |
| ParsingFacts.NextKind | src/rtl_parser.cpp:431-443 | the symbol after `next_symbol` is the kind of the next token, or `eof` |
| ParsingFacts.ShiftEnd | src/rtl_parser.cpp:431-443 | past the last token, `next_symbol` yields `eof` |
| ParsingFacts.LoneNumber | src/rtl_parser.cpp:715-732 | a number not followed by an operator is worth its digits |
| ParsingFacts.NumberThenOperator | src/rtl_parser.cpp:715-731 | a number followed by an operator is combined with the value of the rest of the expression |
| ParsingFacts.StoiDecimal | src/rtl_parser.cpp:716 | `stoi` reads back what `to_string` wrote |
| ParsingFacts.ApplyValue | src/rtl_parser.cpp:724-731 | an operator's value does not depend on the parser state |
| ParsingFacts.LastOperation | src/rtl_parser.cpp:715-732 | the value of `a op b` with nothing after it |
| ParsingFacts.RightAssociative | src/rtl_parser.cpp:724-731 | `a op1 b op2 c` is `a op1 (b op2 c)`, whatever the operators |
| ParsingFacts.TenMinusThreeMinusTwo | src/rtl_parser.cpp:730-731 | `10-3-2` evaluates to 9 |
| ParsingFacts.TwoTimesThreePlusFour | src/rtl_parser.cpp:724-729 | `2*3+4` evaluates to 14 |
| ParsingFacts.UnknownBoundToZero | src/rtl_parser.cpp:702-708 | an unknown variable is reported once, is worth 0 and is bound to 0 |
| ParsingFacts.LookupAgain | src/rtl_parser.cpp:702-708 | a second use of a variable that was unknown reports nothing more |
| ParsingFacts.Defaults | src/rtl_parser.cpp:480-498 | missing `x` and `y` become 10 with a warning each, and an empty rule set gives B3/S23 with a warning |
| ParsingFacts.ExpressionCountIsError | src/rtl_parser.cpp:660-664 | a `%(...)` count in the body is always an error and writes nothing |
| ParsingFacts.RowCheck | src/rtl_parser.cpp:631-636 | "line too long" is reported exactly when the cursor left the row where the line started other than for the start of the next row |
| ParsingFacts.EmptyHeader | src/rtl_parser.cpp:470-511 | an empty header gives the 10 by 10 board with three warnings |
| ParsingFacts.EmptyPatternSection | src/rtl_parser.cpp:625-672 | an empty body expects `o`, writes one live cell in the first cell anyway, and reports nothing at `eof` |
| ParsingFacts.EmptyFile | src/rtl_parser.cpp:782-792 | the empty file gives the 10 by 10 board with one live cell at the top left and three warnings |
| ParsingFacts.ExpectSkips | src/rtl_parser.cpp:413-421 | when the first `k` ahead is at token `j` and the tokens before it are ordinary, `expect(k)` succeeds, reads the token after that `k`, and reports exactly one unexpected token for each token skipped |
| ParsingFacts.ExpectGivesUp | src/rtl_parser.cpp:413-421 | when no `k` is ahead and the tokens are ordinary, `expect(k)` fails at `eof` after exactly one unexpected-token report for each token skipped |
| ParsingFacts.NumberStatement | src/rtl_parser.cpp:559-584 | `name = n` binds the name to `stoi(n)`, replacing any earlier binding, reads three tokens and reports nothing |
| ParsingFacts.SignedStatement | src/rtl_parser.cpp:566-584 | `name = -n` binds the name to minus `stoi(n)` and `name = +n` to `stoi(n)`, with no report |
| ParsingFacts.PercentNumber | src/rtl_parser.cpp:676-686 | `%(n)` is worth `stoi(n)` and reports nothing |
| ParsingFacts.SignedValue | src/rtl_parser.cpp:569-583 | after a sign, the value is the value of what follows, negated after a minus |
| ParsingFacts.UnsignedExpression | src/rtl_parser.cpp:575-581 | anything but a number after the sign is read as `expression_value()` after the sign errors |
| ParsingFacts.SignedPercent | src/rtl_parser.cpp:566-583 | a sign before `%(n)`: one error, unary minus or unary plus, and the value `stoi(n)`, negated after a minus |
| ParsingFacts.SignedExpression | src/rtl_parser.cpp:559-584 | `name = -%(n)` and `name = +%(n)` report unary minus or unary plus once, and still bind the name to the signed value |
| ParsingFacts.RuleStatement | src/rtl_parser.cpp:559-623 | `rule = Bn/Sm` adds the digits of `n` to the born set and those of `m` to the survive set, reads seven tokens, and reports nothing |
| ParsingFacts.CommaAssignment | src/rtl_parser.cpp:473-474 | `, name = b` as the last statement binds the name to `stoi(b)`, with no report |
| ParsingFacts.LastAssignmentWins | src/rtl_parser.cpp:473-584 | `name = a, name = b` leaves the name bound to `stoi(b)`, without an error or a warning |
| RtlParser.Parser.constructor | src/rtl_parser.cpp:387-392 | the parser starts in the initial state on the tokens of its input |
| RtlParser.Parser.Error | src/rtl_parser.cpp:736-752 | `error` as `ReportError`, with the capped printout kept |
| RtlParser.Parser.Warning | src/rtl_parser.cpp:754-763 | `warning` as `ReportWarning` |
| RtlParser.Parser.NextSymbol | src/rtl_parser.cpp:431-443 | `next_symbol` as its specification function |
| RtlParser.Parser.ReadToken | src/rtl_parser.cpp:433-436 | the lexer's next token becomes current |
| RtlParser.Parser.TokenError | src/rtl_parser.cpp:445-454 | `token_error` as its specification function |
| RtlParser.Parser.Accept | src/rtl_parser.cpp:394-400 | `accept` as its specification function |
| RtlParser.Parser.Expect | src/rtl_parser.cpp:413-421 | the resynchronising loop of `expect` as its recursive specification |
| RtlParser.Parser.Operand | src/rtl_parser.cpp:701-723 | the operand part of `math_expression` as its specification function |
| RtlParser.Parser.Lookup | src/rtl_parser.cpp:702-708 | the identifier branch as `Lookup` |
| RtlParser.Parser.Nested | src/rtl_parser.cpp:709-720 | the sign and bracket branches as `Nested` |
| RtlParser.Parser.MathExpression | src/rtl_parser.cpp:700-733 | `math_expression` as its specification function |
| RtlParser.Parser.Operator | src/rtl_parser.cpp:724-732 | the operator part as its specification function |
| RtlParser.Parser.Combine | src/rtl_parser.cpp:724-731 | the result of the operator as `Apply`: a product, a truncated quotient, a sum or a difference, and a reported error with 0 for a zero divisor |
| RtlParser.Parser.ExpressionValue | src/rtl_parser.cpp:676-686 | `expression_value` as its specification function |
| RtlParser.Parser.InsertDigits | src/rtl_parser.cpp:616-617 | the loop inserts one number per character |
| RtlParser.Parser.RuleDescription | src/rtl_parser.cpp:613-623 | `rule_description` as `Parsing.RuleDescription`: after `B` and a number the born set gains that number's digits, and the survive set gains those of the text read last |
| RtlParser.Parser.SurvivePart | src/rtl_parser.cpp:618-622 | the survive half as `Parsing.SurvivePart`: the survive set gains exactly the digits of the text read last, the born set is untouched |
| RtlParser.Parser.AddBorn | src/rtl_parser.cpp:616-617 | the born digits are added to `m_born` and nothing else changes |
| RtlParser.Parser.AddSurvives | src/rtl_parser.cpp:621-622 | the survive digits are added to `m_survives` and nothing else changes |
| RtlParser.Parser.RuleHalf | src/rtl_parser.cpp:614-617 | one half of a rule as `Parsing.RuleHalf`: the digits returned are those of the number after the letter when it is there, and the rules are untouched |
| RtlParser.Parser.AssignedValue | src/rtl_parser.cpp:566-583 | the value of an assignment as `Parsing.AssignedValue`: `stoi` of a number, negated after a minus, and an error for a sign before anything else |
| RtlParser.Parser.Unsigned | src/rtl_parser.cpp:573-581 | the value after the sign as `Parsing.Unsigned`: `stoi` of a number, or an expression after one error per sign |
| RtlParser.Parser.Sign | src/rtl_parser.cpp:569-572 | the sign as its specification function |
| RtlParser.Parser.UnaryErrors | src/rtl_parser.cpp:576-579 | the sign errors as their specification function |
| RtlParser.Parser.ValueDescription | src/rtl_parser.cpp:559-585 | `value_description` as `Parsing.ValueDescription`: a rule description after `rule =`, an assignment after any other `name =` |
| RtlParser.Parser.Assignment | src/rtl_parser.cpp:566-584 | `insert_or_assign` of the value as `Parsing.Assignment`: the name is bound to the number, negated after a minus, replacing any earlier binding |
| RtlParser.Parser.Print | src/rtl_parser.cpp:534-557 | the parsing done by `print` as its specification function |
| RtlParser.Parser.FunctionCall | src/rtl_parser.cpp:520-532 | `function_call` as its specification function |
| RtlParser.Parser.Statement | src/rtl_parser.cpp:513-518 | `statement` as its specification function |
| RtlParser.Parser.Statements | src/rtl_parser.cpp:473-474 | the statement loop as its recursive specification |
| RtlParser.Parser.HeaderSection | src/rtl_parser.cpp:470-511 | `header_section` as its specification function |
| RtlParser.Parser.HeaderChecks | src/rtl_parser.cpp:478-510 | the defaults and checks as their specification function |
| RtlParser.Parser.HeaderDefaults | src/rtl_parser.cpp:478-498 | the defaults as their specification function |
| RtlParser.Parser.Dimension | src/rtl_parser.cpp:480-492 | the value of `x` or `y` as `Dimension` |
| RtlParser.Parser.DimensionChecks | src/rtl_parser.cpp:499-510 | the dimension checks and `Board(y, x)` as their specification function |
| RtlParser.Parser.Comments | src/rtl_parser.cpp:466-468 | `comment_section` as its specification function |
| RtlParser.Parser.Step | src/rtl_parser.cpp:665-672 | one `add_at`/`kill_at(m_position++)`: the cell at the cursor is set and the cursor moves one step |
| RtlParser.Parser.Repeat | src/rtl_parser.cpp:666-672 | the `while (repetitions--)` loop as `Put` |
| RtlParser.Parser.Pattern | src/rtl_parser.cpp:656-674 | `pattern` as its specification function |
| RtlParser.Parser.Run | src/rtl_parser.cpp:665-673 | the run part of `pattern` as its specification function |
| RtlParser.Parser.LinePattern | src/rtl_parser.cpp:650-654 | `line_pattern` as its specification function |
| RtlParser.Parser.FinishLine | src/rtl_parser.cpp:765-775 | `finnish_line` as `FinishLine`, returning the number of cells killed |
| RtlParser.Parser.CloseRow | src/rtl_parser.cpp:631-636 | the row check and `finnish_line` as their specification function |
| RtlParser.Parser.PatternSection | src/rtl_parser.cpp:625-648 | `pattern_section` as its specification function |
| RtlParser.Parser.Lines | src/rtl_parser.cpp:630-640 | the `$` loop as `Rows`, with the row where the last line started |
| RtlParser.Parser.RtlFile | src/rtl_parser.cpp:460-464 | `rtl_file` as its specification function |
| RtlParser.Parser.ParseStream | src/rtl_parser.cpp:782-792 | `parse_stream` returns a board exactly when no error was counted, that board is the one `ParseTokens` describes with the default rules, and the error stream is the capped printout |
| RtlParser.ParseFrom | src/rtl_parser.cpp:782-798 | parsing a whole text gives the board and printout `ParseStream` describes |
| LegacyLexing.LetterEnd | rtl_parser.cpp:128-139 | `get_word` stops at the first character that is not a letter, and every character before it is one |
| LegacyLexing.RuleWord | rtl_parser.cpp:203-211 | the `r` branch: the word `rule` is a token; any other letter word at the end of the input ends in `eof`; otherwise `lex()` never returns |
| LegacyLexing.TokenAt | rtl_parser.cpp:151-215 | the switch of `lex()` on a character that is not a blank moves the stream past the token it hands out |
| LegacyLexing.NextToken | rtl_parser.cpp:147-220 | one call of `lex()`: blanks skipped, then a token that moves the stream forward, `eof` on a failed stream at the end, a hang or an abort |
| LegacyLexing.Tokenize | rtl_parser.cpp:147-220 | the tokens handed out one after the other, none of them `eof`, and how the run ends |
| LegacyLexing.Streams | rtl_parser.cpp:147-220 | the stream before the first call is the one the lexer starts from |
| LegacyLexing.TableOf | rtl_parser.cpp:147-220 | the tokens and the streams between them form a table in which each call of `lex()` yields the next token and the next stream, and the last call ends the run |
| LegacyLexing.TableStep | rtl_parser.cpp:147-220 | from the stream before token `n` the lexer yields token `n`; from the last stream it ends the run |
| LegacyLexing.TokenShape | rtl_parser.cpp:154-211 | every token handed out is a single known character of its own kind, a maximal run of digits, a comment to the end of its line, or the word `rule` |
| LegacyLexing.TokenAtShape | rtl_parser.cpp:154-211 | the token read at a character that is not a blank is one of the shapes of `TokenShape` |
| LegacyLexing.RWordHangs | rtl_parser.cpp:203-217 | an `r` that does not start `rule` and has something after its letters makes `lex()` loop forever |
| LegacyLexing.RWordAtEnd | rtl_parser.cpp:203-217 | the same word at the very end of the input gives `eof` |
| LegacyLexing.UnknownAborts | rtl_parser.cpp:212-218 | a character outside the switch reaches `assert(0)` |
| LegacyLexing.BlanksSkipped | rtl_parser.cpp:212-214 | spaces and newlines in front of a token change nothing |
| LegacyLexing.HangEndsRun | rtl_parser.cpp:203-217 | a hang is the end of the run, with no token before it |
| LegacyLexing.LegacyLexer.constructor | rtl_parser.cpp:142-145 | the lexer starts at the beginning of its stream |
| LegacyLexing.LegacyLexer.GetWord | rtl_parser.cpp:128-139 | the letters from the read position on, with the stream after them and the character that ends them put back |
| LegacyLexing.LegacyLexer.UngetChars | rtl_parser.cpp:99-117 | `count` put-backs move the stream back `count` characters, or do nothing on a failed stream |
| LegacyLexing.LegacyLexer.LexWord | rtl_parser.cpp:203-211 | the `r` branch as `RuleWord`, leaving the stream after the token |
| LegacyLexing.LegacyLexer.LexChar | rtl_parser.cpp:154-215 | the switch as `TokenAt`, leaving the stream after the token |
| LegacyLexing.LegacyLexer.Lex | rtl_parser.cpp:147-220 | `lex()` as `NextToken`, leaving the stream after the token |
| LegacyLexing.LegacyLexer.SkipBlanks | rtl_parser.cpp:212-217 | blanks and newlines are read past; what follows is the first other character or the end, and `lex()` from there is `lex()` from the start |
| LegacyParsing.ReportError | rtl_parser.cpp:423-431 | `error` adds one error to the log and to the count, and keeps the count equal to the errors logged |
| LegacyParsing.ReportWarning | rtl_parser.cpp:433-439 | `warning` adds a warning to the log and leaves the count alone |
| LegacyParsing.Crash | rtl_parser.cpp:364 | a throw from `std::stoi` stops a running program and changes nothing else |
| LegacyParsing.NextSymbol | rtl_parser.cpp:319-324 | the next token becomes current and the cached text moves to the current text; past the last token the run's ending takes effect; nothing is read once stopped |
| LegacyParsing.Accept | rtl_parser.cpp:292-298 | `accept` is true exactly when the symbol is `k`, and then reads the next one |
| LegacyParsing.Expect | rtl_parser.cpp:311-317 | `expect` is true exactly when the symbol is `k`; otherwise one error and nothing consumed |
| LegacyParsing.Stoi | rtl_parser.cpp:364 | `std::stoi` gives a value exactly when the text starts with a digit, and the decimal value of an all-digit text |
| LegacyParsing.AssignedNumber | rtl_parser.cpp:362-364 | `expect(=)`, `expect(number)` and `stoi` of the last text consumed, whichever token it was; only the reading fields change |
| LegacyParsing.KeyAndNumber | rtl_parser.cpp:362-363 | `expect(k); expect(_NUMBER);` changes only the reading fields, never lowers the error count and stops the program at most once |
| LegacyParsing.SizeValue | rtl_parser.cpp:361-371 | `x = n` changes only `m_x`, `y = n` only `m_y`; the board, cursor and rules are untouched |
| LegacyParsing.ValueDescription | rtl_parser.cpp:360-378 | a statement changes `m_x` only after `x` and `m_y` only after `y`, and the rules only after neither |
| LegacyParsing.RuleHalf | rtl_parser.cpp:381-389 | one half of a rule: the numbers `c - '0'` of the characters of the last text consumed; only the reading fields change |
| LegacyParsing.RuleDescription | rtl_parser.cpp:380-390 | the sizes, board and cursor are untouched; the born set only grows and the survive set gains the numbers `c - '0'` of the text consumed last; for `B<n>/S<m>` the sets gain exactly the digits of `n` and `m` (`RuleRead`) |
| LegacyParsing.RuleRead | rtl_parser.cpp:380-390 | `B<n>/S<m>` adds the digits of `n` to the born set and those of `m` to the survive set, with no error |
| LegacyParsing.BornHalf | rtl_parser.cpp:381-384 | the born set gains the numbers `c - '0'` of the text consumed last; after `B` and a number these are the number's digits, with no error; survive set, sizes, board and cursor are unchanged |
| LegacyParsing.SurviveHalf | rtl_parser.cpp:386-389 | the survive set gains the numbers `c - '0'` of the text consumed last; after `S` and a number these are the number's digits, with no error; born set, sizes, board and cursor are unchanged |
| LegacyParsing.SurvivePart | rtl_parser.cpp:385-389 | the born set is untouched and the survive set gains the numbers `c - '0'` of the text consumed last; after `/`, `S` and a number these are the number's digits, with no error |
| LegacyParsing.Statements | rtl_parser.cpp:339-340 | the comma loop ends on a symbol that is not a comma |
| LegacyParsing.HeaderDefaults | rtl_parser.cpp:343-357 | sizes of 0 or less become 10 and empty rule sets get B3/S23 added, each with its warning in order; the board is `height` rows of `width` dead cells with the cursor at its start; no error |
| LegacyParsing.HeaderSection | rtl_parser.cpp:336-358 | the header always ends with a board of at least one row and one column and the cursor at its start |
| LegacyParsing.Comments | rtl_parser.cpp:332-334 | comments are skipped up to a symbol that is not a comment; only the reading fields change |
| LegacyParsing.Put | rtl_parser.cpp:413-419 | `n` writes at an advancing cursor, as `Fill`, and nothing else changes |
| LegacyParsing.Run | rtl_parser.cpp:412-420 | a run keeps the board's size and consumes the `b` or `o` it starts with |
| LegacyParsing.Pattern | rtl_parser.cpp:408-421 | a pattern keeps the board's size and consumes a token when it starts with a number, `b` or `o` |
| LegacyParsing.MorePatterns | rtl_parser.cpp:404-405 | the loop ends on a symbol that is not a number, `b` or `o` |
| LegacyParsing.LinePattern | rtl_parser.cpp:402-406 | a line keeps the board's size and the cursor on it |
| LegacyParsing.FinishRow | rtl_parser.cpp:441-451 | `finnish_line` as `FinishLine`, with no check of where the cursor is; nothing else changes |
| LegacyParsing.Rows | rtl_parser.cpp:394-397 | the row loop ends on a symbol that is not `$` |
| LegacyParsing.PatternSection | rtl_parser.cpp:392-400 | the body keeps the board's size, never lowers the error count, and stops the program at most once |
| LegacyParsing.SizeDefaults | rtl_parser.cpp:343-350 | a width or height that is not positive becomes 10, each with its own warning (width first); nothing else changes |
| LegacyParsing.WidthDefault | rtl_parser.cpp:343-346 | a width that is not positive becomes 10 with a warning; otherwise nothing changes |
| LegacyParsing.HeightDefault | rtl_parser.cpp:347-350 | a height that is not positive becomes 10 with a warning; otherwise nothing changes |
| LegacyParsing.RuleDefaults | rtl_parser.cpp:351-355 | when either rule set is empty, a warning and 3 added to born, 2 and 3 to survives; otherwise nothing changes |
| LegacyParsing.AddDefaultRules | rtl_parser.cpp:353-354 | afterwards 3 is a birth count and 2 and 3 are survival counts; nothing but the rule sets changes |
| LegacyParsing.RtlFile | rtl_parser.cpp:326-330 | a file always yields a board of at least one row and one column |
| LegacyParsing.InitialState | rtl_parser.cpp:287-290 | the parser starts with nothing read, no error counted and the program running |
| LegacyParsing.EndState | rtl_parser.cpp:457-463 | at the end the board exists and the error count equals the errors logged |
| LegacyParsing.ParseTokens | rtl_parser.cpp:457-463 | a board is returned whatever errors were reported, well shaped and at least one cell each way, with the error count of the log; a run that ends in `eof` can only be stopped by `std::stoi` |
| LegacyFacts.SizeAssignment | rtl_parser.cpp:361-371 | a complete `x = n` sets the size to `n` whatever it was, without an error |
| LegacyFacts.MissingNumberThrows | rtl_parser.cpp:361-365 | `x =` followed by something other than a number reports one error and then `std::stoi` throws |
| LegacyFacts.MissingEqualsStillAssigns | rtl_parser.cpp:361-365 | `x n` without `=` reports one error and still assigns `n` |
| LegacyFacts.FirstReadStops | rtl_parser.cpp:457-463 | when the first `next_symbol()` stops the program, the outcome of `parse_stream` is that stop |
| LegacyFacts.LongRowIsNoError | rtl_parser.cpp:392-421 | a run longer than the row spills into the next rows without any error |
| LegacyFacts.EmptyHeader | rtl_parser.cpp:336-358 | a header with nothing set gives the three default warnings, no error and a 10 by 10 board |
| LegacyFacts.EmptyBody | rtl_parser.cpp:392-400 | a body with no tokens reports two errors and the program goes on |
| LegacyFacts.BlankInput | rtl_parser.cpp:457-463 | an input of blanks only gives the 10 by 10 board with three warnings and two errors |
| LegacyFacts.RWordStopsParse | rtl_parser.cpp:203-217 | an `r`-word other than `rule` as the first token makes `parse_stream` never return |
| LegacyFacts.UnknownCharacterStopsParse | rtl_parser.cpp:212-218 | an unknown character as the first token aborts `parse_stream` |
| LegacyRtlParser.Parser.constructor | rtl_parser.cpp:287-290 | the parser and its lexer start in `InitialState`, with the lexer at the start of the text |
| LegacyRtlParser.Parser.Error | rtl_parser.cpp:423-431 | `error` as `ReportError` |
| LegacyRtlParser.Parser.Warning | rtl_parser.cpp:433-439 | `warning` as `ReportWarning` |
| LegacyRtlParser.Parser.Crash | rtl_parser.cpp:364 | a throw from `std::stoi` as `Crash` |
| LegacyRtlParser.Parser.NextSymbol | rtl_parser.cpp:319-324 | `next_symbol` as its specification function, with the lexer kept in step with the token table |
| LegacyRtlParser.Parser.ReadSymbol | rtl_parser.cpp:319-324 | `next_symbol` of a running program as its specification function |
| LegacyRtlParser.Parser.TakeToken | rtl_parser.cpp:321-323 | the fields set from the token handed out, as the specification function, with the lexer back in step |
| LegacyRtlParser.Parser.TakeStop | rtl_parser.cpp:320 | a `lex()` that hangs or aborts stops the program, as the specification function |
| LegacyRtlParser.Parser.Accept | rtl_parser.cpp:292-298 | `accept` as its specification function |
| LegacyRtlParser.Parser.Expect | rtl_parser.cpp:311-317 | `expect` as its specification function |
| LegacyRtlParser.Parser.AssignedNumber | rtl_parser.cpp:362-364 | the number read as its specification function |
| LegacyRtlParser.Parser.KeyAndNumber | rtl_parser.cpp:362-363 | `expect(k); expect(_NUMBER);` as its specification function |
| LegacyRtlParser.Parser.SizeValue | rtl_parser.cpp:361-371 | the size branches as their specification function |
| LegacyRtlParser.Parser.SetSize | rtl_parser.cpp:364 | the assignment of the number read, or the throw, as its specification function |
| LegacyRtlParser.Parser.ValueDescription | rtl_parser.cpp:360-378 | `value_description` as its specification function |
| LegacyRtlParser.Parser.RuleHalf | rtl_parser.cpp:381-384 | one half of a rule as its specification function |
| LegacyRtlParser.Parser.RuleDescription | rtl_parser.cpp:380-390 | `rule_description` as `LegacyParsing.RuleDescription`: the survive set gains the digits of the text consumed last, the born set only grows, and the sizes, board and cursor are untouched |
| LegacyRtlParser.Parser.BornHalf | rtl_parser.cpp:381-384 | the born digits as `BornHalf`: after `B` and a number the born set gains that number's digits with no error |
| LegacyRtlParser.Parser.SurvivePart | rtl_parser.cpp:385-389 | the survive part as `SurvivePart`: after `/`, `S` and a number the survive set gains that number's digits with no error |
| LegacyRtlParser.Parser.SurviveHalf | rtl_parser.cpp:386-389 | the survive digits as `SurviveHalf`: after `S` and a number the survive set gains that number's digits with no error |
| LegacyRtlParser.Parser.Statements | rtl_parser.cpp:339-340 | the comma loop as its recursive specification |
| LegacyRtlParser.Parser.HeaderSection | rtl_parser.cpp:336-358 | `header_section` as its specification function, with a new board |
| LegacyRtlParser.Parser.HeaderDefaults | rtl_parser.cpp:343-357 | the defaults and `Board(m_y, m_x)` as their specification function |
| LegacyRtlParser.Parser.SizeDefaults | rtl_parser.cpp:343-350 | the size defaults as their specification function |
| LegacyRtlParser.Parser.WidthDefault | rtl_parser.cpp:343-346 | the `m_x` default as its specification function |
| LegacyRtlParser.Parser.HeightDefault | rtl_parser.cpp:347-350 | the `m_y` default as its specification function |
| LegacyRtlParser.Parser.RuleDefaults | rtl_parser.cpp:351-355 | the rule default as its specification function |
| LegacyRtlParser.Parser.AddDefaultRules | rtl_parser.cpp:353-354 | the default rules as their specification function |
| LegacyRtlParser.Parser.Comments | rtl_parser.cpp:332-334 | `comment_section` as its specification function |
| LegacyRtlParser.Parser.Step | rtl_parser.cpp:413-419 | one `add_at`/`kill_at(m_position++)`: the cell at the cursor is set and the cursor moves one step |
| LegacyRtlParser.Parser.Repeat | rtl_parser.cpp:413-419 | the `while (repetitions--)` loop as `Put` |
| LegacyRtlParser.Parser.Pattern | rtl_parser.cpp:408-421 | `pattern` as its specification function |
| LegacyRtlParser.Parser.Run | rtl_parser.cpp:412-420 | the run part of `pattern` as its specification function |
| LegacyRtlParser.Parser.LinePattern | rtl_parser.cpp:402-406 | `line_pattern` as its specification function |
| LegacyRtlParser.Parser.FinishLine | rtl_parser.cpp:441-451 | `finnish_line` as `FinishRow`, returning the number of cells killed |
| LegacyRtlParser.Parser.PatternSection | rtl_parser.cpp:392-400 | `pattern_section` as its specification function |
| LegacyRtlParser.Parser.Lines | rtl_parser.cpp:394-397 | the `$` loop as `Rows` |
| LegacyRtlParser.Parser.RtlFile | rtl_parser.cpp:326-330 | `rtl_file` as its specification function, with a new board |
| LegacyRtlParser.Parser.ParseStream | rtl_parser.cpp:457-463 | `parse_stream` returns the board `ParseTokens` describes, with the default rules and the log of the error stream, unless the program stopped, and then for the reason it gives |
| LegacyRtlParser.ParseFrom | rtl_parser.cpp:457-474 | parsing a whole text gives the board and error stream `ParseStream` describes, or the reason the program stopped |

## Left out

- Line and column tracking (`m_line_nr`, `m_col_nr`, `m_previous_col_len`, `update_position`) and the text of messages (`pretty_token`, file name, position). Diagnostics are kept as a list of kinds and the printout as a list of line kinds.
- The standard output of `print` and the blank lines that `m_during_print_call` adds to it. The arguments of `print` are still parsed and still report their errors.
- `m_inside_expression` and `m_expression_desc`: they only feed the text of one error message.
- `std::stoi` and `int` overflow: numbers and arithmetic are unbounded integers.
- Division by zero in `math_expression` is undefined behaviour in C++. The model reports an error and yields 0.
- Parsing.Stoi: gives 0 for text that is not all digits, where `std::stoi` would throw. That case never arises: every call of `std::stoi` in src/rtl_parser.cpp (lines 574, 659 and 716) follows a successful `accept(_NUMBER)`, so it only sees the text of a number token, which is all digits (`Lexing.NumberTokenShape`).
- Lexing.Tokenize and RtlParser.ParseFrom: the input is a sequence of characters, not of bytes. `get_char` reads one byte at a time with `std::istream::get`, so a character outside ASCII, which UTF-8 writes as two to four bytes, gives that many `_ERROR` tokens outside strings and comments, with that many errors counted and printout lines. The model gives one token and one error for it. Inside strings and comments only the length of the text differs. Whether a board comes back is the same, since it depends only on whether any error was counted.
- File and console streams (`parse_from_file`, `parse_from_stdin`, the `std::ofstream` of `dump_to_file`): inputs and outputs are texts.
- Boards.Board.DumpToText: requires a board at least one cell wide unless it has no rows. On a board with rows but no columns the cursor loop reads cells that do not exist.
- Board::draw, the engines, main.cpp and parser.cpp (unfinished and does not compile) are not part of this model.
- The commented-out parsers at the end of src/rtl_parser.cpp.
- In the earlier parser, the file name, line and column and the text of each message (`pretty_token`); errors and warnings are kept as a list of kinds.
- The earlier parser's `m_error_count` is never initialised; it is taken to start at 0.
- The earlier lexer's `assert(0)` is taken to be compiled in (no `NDEBUG`); with it compiled out, `lex()` would hand out an error token instead of aborting.
- LegacyParsing.Stoi: does not model the `std::out_of_range` that `std::stoi` throws for numbers too large for an `int`, nor a leading blank or sign, which no token of this lexer has.
- A stop of the program (a hang, an abort, an exception) is a value here: `halt` in the state and `Stopped` in the outcome. After it the model returns instead of never returning.
- `Board::draw` and its curses calls in the earlier board.cpp.
- Boards.Board.constructor, Boards.Board.AddAt and Boards.Board.KillAt take `nat` where the C++ takes `int`. A negative size or index is not modelled. A negative size converts to a huge `size_t` in `resize`, which fails. The bounds check of `add_at` and `kill_at` tests only the upper bounds, so a negative index writes outside the rows (undefined behaviour).
- ParsingFacts.ExpectSkips and ParsingFacts.ExpectGivesUp: they require the skipped tokens to be ordinary. An error token among them also reports its own lexer error through `token_error()`, which `Parsing.Expect` models but these two lemmas do not count.
- RoundTrip.EncodeThenParse: requires non-empty rule sets of non-negative numbers. An empty set is written as a bare `B` or `S`, which the parser rejects, and a negative number is written with a `-` that the lexer reads as a token of its own. The rules read back are not compared, since the parser never hands them to the board.

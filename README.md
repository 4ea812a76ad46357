# Advent of Code solvers, modelled in Dafny

The repository is a collection of independent Advent-of-Code solvers written in Go. Each solver reads its puzzle input through a `bufio` scanner or reader, runs a small integer or string algorithm, and prints the answer. This project models those algorithms and the parsing of the input lines. It proves what each one computes.

Each core Go file becomes one Dafny module:

- `trebuchet.dfy` (`Trebuchet`) models 2023/day1.go: first and last digit of each line, and rune-wise reversal.
- `cubes.dfy` (`CubeConundrum`) models 2023/day2.go, the cube-game lexer and parser:
  - the `Lexer` and `Parser` classes step through their `position`/`readPos`/`ch` and `curr`/`peek` fields;
  - `Rules` is the value the parser folds with `Update`.
- `cube_lines.dfy` (`CubeLines`) states the day 2 parser's behaviour on the text of a game line.
- `engine_parts.dfy` (`EngineParts`) models 2023/day3.go, the first engine-schematic solver, as a three-line window class.
- `gear_ratios.dfy` (`GearRatios`) models solutions/day3.go, the second engine-schematic solver:
  - a window class over a newline-terminated text;
  - parts found round a number, and gear bookkeeping;
  - proved to agree with the first solver except in column 0.
- `scratchcards.dfy` (`Scratchcards`) models solutions/day4.go:
  - integer sets, and parsing of a card;
  - the score 2^(n-1);
  - the copy map, a class whose map field is updated in place.
- `almanac.dfy` (`SeedAlmanac`) models solutions/day5.go: interval rules, seven stages in a chain, the lowest location, and the almanac parser with its round trip.
- `boat_race.dfy` (`BoatRace`) models solutions/day6.go: the two scans over hold times, and the product over the races.
- `camel_cards.dfy` (`CamelCards`) models solutions/day7.go:
  - card ranks, and hand types from card multiplicities with the joker rule;
  - the comparator;
  - the game's singly linked list of hands, with classes for the nodes and the game;
  - the winnings.
- `wasteland.dfy` (`Wasteland`) models solutions/day8.go: the circular instruction ring as linked nodes, the walk through the node map, and its parser.
- `oasis.dfy` (`Oasis`) models solutions/day9.go: difference-table extrapolation and the record parser.
- `utils.dfy` (`Utils`) models utils/utils.go and utils/conversions.go: character classes, `MakeRange`, `LengthOfInt`, `FindNumberInBytes` and `StringSliceToIntSlice`.

Four helper modules stand for the Go library calls the solvers make:

- `wrappers.dfy` (`Wrappers`) holds the `Option` type. `None` marks a fatal path (`log.Fatalf`, an index panic).
- `strconv.dfy` (`Strconv`) holds `Atoi` and its inverse, decimal formatting.
- `gostrings.dfy` (`GoStrings`) holds `strings.Fields`, `Split`, `Join`, `Trim` and `TrimSuffix`, each with the inverse that fixes its meaning.
- `collections.dfy` (`Collections`) holds facts about sets and multisets that stand for Go maps, and the sum and product of a slice.

Methods with loops are proved against specification functions, and the properties the source promises are proved about those functions. The properties are:

- round trips: parsing printed data gives it back;
- order laws of the hand comparator;
- sortedness and stability of the list insert;
- independence from map order;
- agreement between the two day-3 solvers.

The quirks of the code as written are also pinned down:

- a zero-offset rule does not end a day-5 stage;
- the last hand always ranks `length` in `Winnings`;
- `AttemptRace` returns 1 when nothing wins;
- `filterPoints` drops column 0;
- the day-9 zero flag looks at the values, not at the differences.

## Model

| member | source | states |
|---|---|---|
| Utils.DigitClass | utils/utils.go:14-20 | `IsDigit` holds exactly on the ten characters `0`..`9`, and no digit is a letter (`IsLetter` is ASCII a-z and A-Z) |
| Utils.MakeRange | utils/utils.go:22-28 | the result has `max - min` elements and element i is `min + i` |
| Utils.RangeMembers | utils/utils.go:22-28 | the values of such a range are exactly the integers x with min <= x < max |
| Utils.LengthOfInt | utils/utils.go:30-32 | for n >= 1, the result k is at least 1 and 10^(k-1) <= n < 10^k |
| Utils.LengthOfIntUnique | utils/utils.go:30-32 | that k is the only one with 10^(k-1) <= n < 10^k |
| Utils.LengthOfDigitRun | utils/utils.go:30-32 | the digit count of a digit string without a leading zero is its length |
| Utils.DigitRunEnd | utils/utils.go:38 | the digit run from `pos` ends at the end of the data or at the first non-digit |
| Utils.FindNumberInBytes | utils/utils.go:34-48 | succeeds exactly when `data[pos]` is a digit, then returns the value of the maximal digit run starting at `pos`; otherwise `(0, false)` |
| Utils.RunWidth | utils/utils.go:30-48 | for a run without a leading zero, `LengthOfInt` of its value is the run's width |
| Utils.RunInterior | utils/utils.go:38 | no digit run starts inside a run or right after its end |
| Utils.StringSliceToIntSlice | utils/conversions.go:8-20 | succeeds exactly when every string converts with `Atoi`, and then holds the converted values in order |
| Utils.StringSliceToIntSliceFormat | utils/conversions.go:8-20 | converting the decimal renderings of integers gives back those integers |
| Strconv.Atoi | utils/utils.go:42 | a non-empty digit string gives its decimal value, a `-` followed by digits gives the negated value, and the empty string fails |
| Strconv.DecimalValue | utils/utils.go:42 | a digit string's value is below 10^length |
| Strconv.DecimalValueLower | utils/utils.go:42 | a digit string without a leading zero is worth at least 10^(length-1) |
| Strconv.AtoiFormatInt | utils/utils.go:42 | `Atoi` of the decimal rendering of n is n |
| Trebuchet.StrToInt | 2023/day1.go:25-32 | succeeds exactly when the rune at i is an ASCII digit, with that digit's value, and gives `(0, false)` otherwise |
| Trebuchet.FirstDigitAt | 2023/day1.go:74-87 | the index found holds a digit and no earlier rune is a digit; -1 exactly when there is no digit |
| Trebuchet.LastDigitAt | 2023/day1.go:58 | the index found holds a digit and no later rune is a digit; -1 exactly when there is no digit |
| Trebuchet.PickFirstDigit | 2023/day1.go:74-87 | succeeds exactly when the line has a digit, with the value of the leftmost one, and gives `(0, false)` otherwise |
| Trebuchet.Reverse | 2023/day1.go:63-72 | the result has the same length and rune i is the input's rune `len - 1 - i` |
| Trebuchet.ReverseReverse | 2023/day1.go:63-72 | reversing twice gives back the text |
| Trebuchet.ReverseString | 2023/day1.go:63-72 | the loop that moves the last rune to the result yields exactly the reversal |
| Trebuchet.FirstDigitOfReverse | 2023/day1.go:58 | the first digit of the reversed line is the last digit of the line |
| Trebuchet.ConstructValue | 2023/day1.go:52-61 | fails exactly when the line has no digit; otherwise 10 times the first digit plus the last digit |
| Trebuchet.CalibrationValueMeaning | 2023/day1.go:52-61 | a value exists exactly when some rune is a digit, lies in 0..99, and is built from the leftmost and the rightmost digit |
| Trebuchet.SingleDigitValue | 2023/day1.go:52-61 | a line with a single digit d has the value 11 d |
| Trebuchet.SumCalibrationValues | 2023/day1.go:36-50 | succeeds exactly when every line has a value and then returns their sum; the first line without a digit aborts with `(0, error)` |
| Trebuchet.SumAppend | 2023/day1.go:45-46 | one more line adds its value to the sum |
| Trebuchet.SumFails | 2023/day1.go:42-45 | one line without a value makes the whole sum fail |
| Trebuchet.SumSucceeds | 2023/day1.go:36-50 | the sum succeeds exactly when every line has a value |
| CubeConundrum.LookupIdent | 2023/day2.go:58-69 | `red`, `green` and `blue` give their colour tokens, and every other word gives the game keyword |
| CubeConundrum.CompareMeaning | 2023/day2.go:93-104 | `Compare(other)` holds exactly when `other` is at most the receiver in every colour; it is reflexive and transitive |
| CubeConundrum.UpdateLeastUpperBound | 2023/day2.go:81-91 | `Update` is idempotent and commutative, dominates both counts, lies below every common bound, and changes nothing exactly when the receiver already dominates |
| CubeConundrum.UpdateAllLeast | 2023/day2.go:146-156 | folding the sets with `Update` gives the least counts that dominate every set |
| CubeConundrum.SpaceRun | 2023/day2.go:302-306 | the blanks skipped are spaces or tabs, and the byte after them is neither |
| CubeConundrum.LetterCount | 2023/day2.go:308-314 | the letters read stop at the first non-letter |
| CubeConundrum.DigitCount | 2023/day2.go:316-322 | the digits read stop at the first non-digit |
| CubeConundrum.TokenWidth | 2023/day2.go:268-300 | every token moves the lexer on by at least one byte |
| CubeConundrum.LexSkipsBlanks | 2023/day2.go:271 | a space or tab in front of a token changes neither the token nor anything after it |
| CubeConundrum.LexWord | 2023/day2.go:286-289 | a maximal run of letters is one token: its colour or the game keyword, with the run as its literal |
| CubeConundrum.LexNumber | 2023/day2.go:290-293 | a maximal run of digits is one `VALUE` token with the digits as its literal |
| CubeConundrum.LexPunctuation | 2023/day2.go:273-281 | each of `:`, `;`, `,` and `#` is a one-byte token of its own kind |
| CubeConundrum.LexAtEnd | 2023/day2.go:258-266 | at the end of the text the lexer returns `EOL` with an empty literal and stays at the end, so it keeps returning `EOL` |
| CubeConundrum.LexNul | 2023/day2.go:282-284 | a NUL byte also reads as `EOL` and is passed over |
| CubeConundrum.Lexer.constructor | 2023/day2.go:252-256 | a new lexer stands on the first byte of its input |
| CubeConundrum.Lexer.ReadChar | 2023/day2.go:258-266 | `position` moves to `readPos`, `readPos` moves on one, and `ch` is the byte there, or NUL past the end |
| CubeConundrum.Lexer.SkipWhitespace | 2023/day2.go:302-306 | the position moves past exactly the run of spaces and tabs |
| CubeConundrum.Lexer.ReadIdentifier | 2023/day2.go:308-314 | returns the maximal run of letters from the current byte and stands after it |
| CubeConundrum.Lexer.ReadNumber | 2023/day2.go:316-322 | returns the maximal run of digits from the current byte and stands after it |
| CubeConundrum.Lexer.NextToken | 2023/day2.go:268-300 | returns the token `NextTok` gives for the rest of the input and moves on by `Width` bytes |
| CubeConundrum.LexerShift | 2023/day2.go:268-300 | each `NextToken` call hands out the first token of the token list and leaves the others |
| CubeConundrum.Parser.constructor | 2023/day2.go:129-136 | a new parser has read two tokens: `curr` is token 0 of the line and `peek` token 1 |
| CubeConundrum.Parser.NextToken | 2023/day2.go:138-144 | `curr` moves on by one token in the line's token list |
| CubeConundrum.Parser.ExpectPeek | 2023/day2.go:193-200 | moves on exactly when `peek` has the type asked for, and says whether it did |
| CubeConundrum.ResultSpecCases | 2023/day2.go:207-212 | a `:` or `;` not followed by a number gives no set and reads no token; otherwise the counts are read from the number on |
| CubeConundrum.ResultLoopStep | 2023/day2.go:214-239 | one count and colour, with an optional comma, sets that colour to the count and the loop goes on after them |
| CubeConundrum.Parser.ParseResult | 2023/day2.go:207-242 | the set read and the tokens used are those of `ResultSpec` |
| CubeConundrum.Parser.ParseCounts | 2023/day2.go:214-241 | the loop reads counts until a `;` or the end of the line, and a count that is not a number abandons the set |
| CubeConundrum.Parser.ReadColour | 2023/day2.go:224-238 | the colour after a count sets that colour's count, another token changes nothing, and a comma after it is passed over |
| CubeConundrum.Parser.ParseSet | 2023/day2.go:171-183 | the game keyword and any stray token are passed over without a set, and a `:` or `;` starts one |
| CubeConundrum.SetProgress | 2023/day2.go:161-166 | when every `:` and `;` is followed by a number, each `parseSet` reads at least one token, so `parseSets` ends |
| CubeConundrum.ScanSetsSpec | 2023/day2.go:158-169 | the loop appends exactly the sets read from the current token up to `EOL` |
| CubeConundrum.Parser.ParseSets | 2023/day2.go:158-169 | returns the sets of the line in order, dropping the `nil` ones |
| CubeConundrum.Parser.Parse | 2023/day2.go:146-156 | returns all the sets of the line folded with `Update`, starting from no cubes |
| CubeLines.ColourNotShown | 2023/day2.go:226-233 | a colour that no draw of a set shows keeps the count it had |
| CubeLines.LastDrawCounts | 2023/day2.go:226-233 | a colour shown more than once in a set counts with its last draw, because the later count overwrites the earlier one |
| CubeLines.LexDraw | 2023/day2.go:268-322 | the text ` 8 green` reads as a `VALUE` token with the count's digits, followed by the colour token |
| CubeLines.LexSet | 2023/day2.go:268-322 | a set's text reads as its draws' tokens with a `COMMA` between each two |
| CubeLines.LexSets | 2023/day2.go:268-322 | the sets' text reads as their tokens with a `SEMIC` between each two |
| CubeLines.LexGame | 2023/day2.go:268-322 | a line `Game <id>:<sets>` reads as `GAME`, `VALUE`, `COLON` and then the sets' tokens |
| CubeLines.ResultLoopSet | 2023/day2.go:214-241 | over the tokens of a set, `parseResult`'s loop sets each draw's colour in turn and stops at the `;` or the end of the line after the set |
| CubeLines.SetReadsFirst | 2023/day2.go:171-183 | a `parseSet` at a `:` or `;` before a set's tokens returns that set's counts |
| CubeLines.SetsSpecSets | 2023/day2.go:158-169 | after the `:`, `parseSets` returns the counts of each set of the line, in order |
| CubeLines.ParseFromHead | 2023/day2.go:158-183 | over a game line's tokens, the keyword and the game number give no set, every `:` and `;` is followed by a count, and the sets after the `:` are read in order |
| CubeLines.ParseGameText | 2023/day2.go:129-242 | a game line made of sets that each show a count satisfies the termination condition, and `Parse` returns the sets' counts folded with `Update` from no cubes |
| EngineParts.RowAligned | 2023/day3.go:95-105 | under the schematic's precondition, a non-empty line and the lines round it can be indexed at the middle line's columns |
| EngineParts.ScanRowsNumbers | 2023/day3.go:57-71 | the loop of `FindAllNumbers` appends the parts of each row from the current one on, up to the first empty row |
| EngineParts.ScanParts | 2023/day3.go:73-89 | the loop of `findNumbers` appends the parts of the row from the current column on |
| EngineParts.ScanSkip | 2023/day3.go:76-78 | columns where no digit run starts add no part |
| EngineParts.PartAtRun | 2023/day3.go:77-83 | at the start of a run, `lengthOfInt` of the run's value is the run's width, and the part is the value exactly when a symbol is near |
| EngineParts.ScanStep | 2023/day3.go:78-84 | a number found at i is kept when it is a part, and the scan resumes one column past the end of its digits |
| EngineParts.FindStep | 2023/day3.go:76-85 | one pass of the loop: resuming at i + width + 1 never lands inside a run and the parts found stay those of the row |
| EngineParts.NearInPoints | 2023/day3.go:91-110 | the three `containsSymbol` checks over the filtered columns find a symbol exactly when one lies in a checked column next to the number |
| EngineParts.Clip | 2023/day3.go:112-123 | the kept points are exactly the listed points p with 0 < p < the row width, in order |
| EngineParts.ContainsSymbol | 2023/day3.go:159-167 | true exactly when some listed column of the row holds a byte that is neither a digit nor `.` |
| EngineParts.EngineSchematic.constructor | 2023/day3.go:33-39 | a new schematic has an empty window advanced once, so the first line is the next one |
| EngineParts.EngineSchematic.AdvanceLines | 2023/day3.go:41-55 | the window moves down one line (`prev` gets `curr`, `curr` gets `next`), the next line is read or is empty past the end, and the result is always true |
| EngineParts.EngineSchematic.FilterPoints | 2023/day3.go:112-123 | returns the points inside the current row except column 0 |
| EngineParts.EngineSchematic.IsEnginePart | 2023/day3.go:91-110 | true exactly when a symbol lies in a present row at a filtered column from pos - 1 to pos + the number's width |
| EngineParts.EngineSchematic.FindNumbers | 2023/day3.go:73-89 | returns, left to right, the value of each digit run of the row that has a symbol next to it |
| EngineParts.EngineSchematic.FindAllNumbers | 2023/day3.go:57-71 | returns the parts of each row in row order, up to the first empty row |
| EngineParts.Day3 | 2023/day3.go:12-23 | returns the sum of the parts of all rows up to the first empty one |
| GearRatios.NewlineFrom | solutions/day3.go:86 | the index found is the first `\n` at or after i, or -1 when there is none |
| GearRatios.LinesUnlines | solutions/day3.go:86-92 | reading newline-terminated lines gives them back without their `\n`, and an unterminated last line is lost |
| GearRatios.LastLineLost | solutions/day3.go:86-90 | a schematic whose last line has no `\n` loses that line |
| GearRatios.ReadStep | solutions/day3.go:86-92 | one `ReadBytes('\n')` gives the next line without its `\n`, or the empty row at `io.EOF`, and leaves the text of the later lines |
| GearRatios.PointsBetweenMembers | solutions/day3.go:139-168 | the points checked are exactly the window's points in the columns inside the middle row, each in a present row and carrying that row's byte and row counter |
| GearRatios.FirstPartNone | solutions/day3.go:170-181 | `checkPoints` finds nothing exactly when no point holds a symbol |
| GearRatios.FirstPartAt | solutions/day3.go:170-181 | otherwise it returns the first symbol point, as a gear exactly when the byte is `*` |
| GearRatios.CheckPoints | solutions/day3.go:170-181 | returns the first point whose byte is neither a digit nor `.`, with `gear` set when it is `*`, and `(Part{}, false)` when there is none |
| GearRatios.CheckFinds | solutions/day3.go:131-137 | `checkNumber` finds a part exactly when some column from pos - 1 to pos + width holds a symbol in a present row |
| GearRatios.SameAt | solutions/day3.go:108-124 | at each column this version keeps the number the first version (2023/day3.go) keeps, as long as column 0 holds no symbol |
| GearRatios.SameRowNumbers | solutions/day3.go:108-124 | without a symbol in column 0, both versions keep the same numbers of a row |
| GearRatios.ColumnZero | solutions/day3.go:142-143 | with a symbol in column 0 next to a number, this version keeps the number and the first version does not |
| GearRatios.ScanRowNumbers | solutions/day3.go:111-124 | the loop of `findRowNumbers` appends the row's kept numbers |
| GearRatios.RowGearsFiled | solutions/day3.go:117-119 | the loop files under each gear its neighbouring numbers of the row, after what was filed before |
| GearRatios.RowGearsKeys | solutions/day3.go:117-119 | a part becomes a key of the map exactly when a number is filed under it |
| GearRatios.NoRunNoPart | solutions/day3.go:112-113 | where no digit run starts no part is found |
| GearRatios.RunInteriorNoPart | solutions/day3.go:122 | the scan skips the rest of a run, so no part is found inside it |
| GearRatios.PartAtRun | solutions/day3.go:112-122 | at the start of a run the digit count of its value is the run's width, and the part is `checkNumber`'s answer |
| GearRatios.ScanRun | solutions/day3.go:113-123 | a number at a run is kept and filed as its part says, and the scan resumes at the end of the run |
| GearRatios.ScanLinesNumbers | solutions/day3.go:96-106 | the loop of `findPartNumbers` appends the kept numbers of each line up to the first empty line |
| GearRatios.FileGearsFiled | solutions/day3.go:96-124 | the gear map files under each gear the numbers next to it, line by line and left to right |
| GearRatios.FileGearsKeys | solutions/day3.go:96-124 | a part is a key of the gear map exactly when some number is filed under it |
| GearRatios.GearNumbersGear | solutions/day3.go:117 | only gears, that is `*` parts, are keys of the map |
| GearRatios.EngineSchematic.constructor | solutions/day3.go:69-77 | the row counter starts at 1, the gear map is empty, and the empty window is advanced once |
| GearRatios.EngineSchematic.AdvanceLines | solutions/day3.go:79-94 | the window moves down one line and the row counter goes up; the next row is the next line without its `\n`, or empty at `io.EOF`; the result is always true |
| GearRatios.EngineSchematic.GetPointsToCheck | solutions/day3.go:139-168 | returns, for each column from pos - 1 to pos + width inside the middle row, the point above when that row is present, the point in the middle row, and the point below when present |
| GearRatios.EngineSchematic.AppendColumn | solutions/day3.go:143-164 | one column appends its points in the order above, middle, below |
| GearRatios.EngineSchematic.CheckNumber | solutions/day3.go:131-137 | returns the first symbol point around the number, or `(Part{}, false)` |
| GearRatios.EngineSchematic.FindRowNumbers | solutions/day3.go:108-128 | returns the row's numbers that have a symbol point around them, left to right, and files each one next to a gear under that gear |
| GearRatios.EngineSchematic.FindPartNumbers | solutions/day3.go:96-106 | returns the kept numbers of each line up to the first empty one, and the gear map holds every gear's numbers |
| GearRatios.Ratio | solutions/day3.go:28-38 | a gear with at most one number contributes 0, and one with two numbers their product |
| GearRatios.GearSumRemove | solutions/day3.go:28 | the gear total does not depend on the order the map is visited in |
| GearRatios.SumParts | solutions/day3.go:22-24 | returns the sum of the part numbers |
| GearRatios.SumGearRatios | solutions/day3.go:28-38 | returns the sum, over the gears with at least two numbers, of the product of their numbers |
| GearRatios.Day3 | solutions/day3.go:13-41 | returns the sum of the kept numbers and the total of the gear ratios of the whole file |
| Scratchcards.SetOfMeaning | solutions/day4.go:66-82 | the set exists exactly when every non-empty string is an integer, and then holds exactly the values of the non-empty strings |
| Scratchcards.NewSetFromStrSlice | solutions/day4.go:66-82 | skips empty strings, collapses duplicates, and fails on a string that is not an integer |
| Scratchcards.SetOfFails | solutions/day4.go:73-76 | one string that is neither empty nor an integer makes the set fail |
| Scratchcards.SetOfFormat | solutions/day4.go:66-82 | the decimal renderings of integers are read back as the set of those integers |
| Scratchcards.Union | solutions/day4.go:84-96 | returns a fresh set holding a key exactly when one of the two sets holds it |
| Scratchcards.Intersect | solutions/day4.go:98-108 | returns a fresh set holding a key exactly when both sets hold it |
| Scratchcards.SplitTwo | solutions/day4.go:142-161 | succeeds exactly when the split gives two parts, and the two parts joined by the delimiter give back the text |
| Scratchcards.ParseGame | solutions/day4.go:132-165 | fails unless the line splits in two on `:` and its numbers split in two on the bar character into integers; the winning and the player's numbers are those sets and `matches` holds exactly the numbers in both |
| Scratchcards.ScoreGame | solutions/day4.go:188-192 | one match scores 1, and every further match multiplies by the scoring base |
| Scratchcards.Score | solutions/day4.go:174-182 | no match scores 0; otherwise the score is 2^(n-1) for n matches, so it is 0 only without matches |
| Scratchcards.CopyMap.constructor | solutions/day4.go:20 | a new copy map is empty |
| Scratchcards.CopyMap.AddOne | solutions/day4.go:25 | card i gains one instance and every other card keeps its count |
| Scratchcards.CopyMap.InsertCopies | solutions/day4.go:43-52 | each of the n cards after `offset` gains as many instances as card `offset` has, and every other card, `offset` included, keeps its count |
| Scratchcards.CopyMap.SumValues | solutions/day4.go:54-62 | returns the counts of cards 1 to `end` added up, with a missing card counting 0 |
| Scratchcards.CardCountBounds | solutions/day4.go:24-31 | every card has at least its original instance, and a card with no match passes nothing on |
| Scratchcards.CardCountPrefix | solutions/day4.go:24-31 | the count of a card depends only on the matches of the earlier cards |
| Scratchcards.SumToTotal | solutions/day4.go:34 | once every count is final, `sumValues` is the total number of cards |
| Scratchcards.GamesOfFails | solutions/day4.go:27 | one line that is not a card makes the whole input fail |
| Scratchcards.GamesStep | solutions/day4.go:24-32 | one more line extends the cards, adds its score to the points and its match count to the counts |
| Scratchcards.CountsStep | solutions/day4.go:24-29 | each card gets its original and then hands its count on to the cards its matches reach |
| Scratchcards.Day4 | solutions/day4.go:16-35 | fails exactly when some line is not a card; otherwise returns the total points and the total number of cards, each card counted as its original plus the copies passed on to it by the earlier cards |
| SeedAlmanac.InstructionNext | solutions/day5.go:117-128 | an item in the half-open interval [sourceStart, sourceStart + rangeLength) moves by destStart - sourceStart, and any other item is returned unchanged |
| SeedAlmanac.InstructionImage | solutions/day5.go:117-128 | a rule sends its source interval into its destination interval, and the reverse rule undoes it there |
| SeedAlmanac.InstructionBoundaries | solutions/day5.go:120 | the interval's start is moved, while its end and the item before it are not |
| SeedAlmanac.FindNext | solutions/day5.go:100-109 | the loop with its early return gives the output of the first rule that changes the item, or the item itself |
| SeedAlmanac.StageFirstChange | solutions/day5.go:101-106 | the stage returns the output of the first rule, in authored order, whose output differs from the item |
| SeedAlmanac.StageNoChange | solutions/day5.go:108 | when no rule changes the item the stage returns it, so a stage with no rules is the identity |
| SeedAlmanac.ZeroOffsetSkipped | solutions/day5.go:103-105 | a covering rule with offset zero does not stop the search, and the later rules still decide |
| SeedAlmanac.ZeroOffsetExample | solutions/day5.go:103-105 | 7 is covered by the zero-offset rule (5, 5, 10) and is still moved to 107 by the rule (100, 0, 20) after it |
| SeedAlmanac.StageDisjoint | solutions/day5.go:100-128 | with disjoint source intervals, a stage adds the offset of the one rule that covers the item |
| SeedAlmanac.FindLocationToPlant | solutions/day5.go:43-51 | the loop over the mappers gives the seed taken through the seven stages from seed-to-soil to humidity-to-location |
| SeedAlmanac.ThroughMappers | solutions/day5.go:84-94 | going through `mappers()` in order is the seven-stage chain |
| SeedAlmanac.LowestLocation | solutions/day5.go:14-24 | the result is at most the sentinel 1024^4 and at most every seed's location, and it is the sentinel or some seed's location |
| SeedAlmanac.NextTokens | solutions/day5.go:178-191 | the block returned is the lines up to the first empty line, each with a trailing `\n` removed; the empty line is consumed and the lines after it are left |
| SeedAlmanac.ParseInstructions | solutions/day5.go:207-212 | succeeds with one rule per line, in order, each read from its line's fields |
| SeedAlmanac.ParseInstructionFormat | solutions/day5.go:208-210 | a rule line is read back as the same rule, with the fields in the order destination start, source start, range length |
| SeedAlmanac.GetNextMappingFormat | solutions/day5.go:204-214 | `getNextMapping` skips the header line and reads every other line as a rule |
| SeedAlmanac.GetSeedsFormat | solutions/day5.go:193-202 | `getSeeds` reads the integers after the colon of the one seed line |
| SeedAlmanac.ScanMappingFormat | solutions/day5.go:178-214 | a map block followed by an empty line, or by nothing, is scanned back as the same map, leaving the lines after it |
| SeedAlmanac.CreateAlmanacFormat | solutions/day5.go:165-214 | an almanac written out as its seed line and seven map blocks is read back by `createAlamanac` as the same seeds and the same seven maps, each under its own stage |
| BoatRace.FirstWinFrom | solutions/day6.go:43-48 | the smallest winning hold time in [i, Time], or 0 when none wins, with no winner in [i, w) |
| BoatRace.LastWinBelow | solutions/day6.go:50-55 | the largest winning hold time below n, or 0 when none wins, with no winner after it |
| BoatRace.AttemptRace | solutions/day6.go:37-59 | the two scans return `right - left + 1`, where left is the smallest winner in [1, Time] and right the largest in [0, Time) |
| BoatRace.NoWinGivesOne | solutions/day6.go:57-58 | when no hold time beats the record, the result is 1, not 0 |
| BoatRace.Concave | solutions/day6.go:44 | the distance i(T - i) is at least the smaller of its two values at two surrounding hold times |
| BoatRace.WinnersContiguous | solutions/day6.go:35-36 | with linear charging, a hold time between two winners also wins |
| BoatRace.WinCountBlock | solutions/day6.go:35-36 | counting the winners below n when they form the block [l, r] |
| BoatRace.RaceResultCounts | solutions/day6.go:35-59 | with linear charging and a non-negative record, the result is the number of winning hold times whenever at least one wins |
| BoatRace.Parse | solutions/day6.go:82-96 | succeeds exactly when both lines parse and there are at least as many distances as times; the i-th record is the i-th time with the i-th distance |
| BoatRace.Pair | solutions/day6.go:91-93 | the loop pairs times with distances by index, and fails when the distances run short |
| BoatRace.ResultProductZero | solutions/day6.go:23-26 | the product of the race results is zero exactly when some race has result zero |
| BoatRace.Day6 | solutions/day6.go:16-29 | the product of the race results of a boat with base velocity 1, starting from 1 |
| BoatRace.TravelProduct | solutions/day6.go:44 | holding for i covers `baseVelocity * i * (Time - i)` |
| CamelCards.NewCamelCard | solutions/day7.go:276-310 | a symbol of `23456789TJQKA` gives the card with that symbol; `J` is the Joker exactly under the joker rule; every other card ranks 2 to 14; any other byte is fatal |
| CamelCards.RanksFollowOrder | solutions/day7.go:259-274 | without the joker rule the ranks grow along `23456789TJQKA` from 2 to 14; under it the Joker ranks 1, below every other card |
| CamelCards.DetermineType | solutions/day7.go:183-216 | the type is one of the seven, from high card to five of a kind |
| CamelCards.DetermineTypeOfListing | solutions/day7.go:183-248 | whatever order the count map is ranged in, `determineType` gives the type of the card multiset |
| CamelCards.Less | solutions/day7.go:150-167 | a hand is less when its type is lower, or the types are equal and at the first differing position its card ranks lower |
| CamelCards.RanksLessOrder | solutions/day7.go:157-166 | the card comparison is irreflexive and transitive, and two rank sequences are incomparable exactly when their ranks are equal |
| CamelCards.HandLessOrder | solutions/day7.go:150-167 | `Less` is a strict weak order: irreflexive, transitive, and incomparable exactly on hands with equal type and ranks, which compare alike with every third hand |
| CamelCards.LessThenNotLess | solutions/day7.go:150-167 | a hand less than b is less than every hand b is not less than |
| CamelCards.MatchCards | solutions/day7.go:218-248 | the counts list each card's multiplicity once; under the joker rule the jokers join a most frequent other card and lose their own entry; the counts add up to 5, and five jokers give `[5]` |
| CamelCards.TypeOfChoiceFree | solutions/day7.go:230-235 | which of several most frequent cards receives the jokers does not change the type |
| CamelCards.MaxCardExists | solutions/day7.go:230-235 | there always is a card to receive the jokers |
| CamelCards.JoinedSize | solutions/day7.go:236-240 | moving the jokers' count to another card keeps the number of cards |
| CamelCards.AllJokers | solutions/day7.go:229-245 | a hand of five jokers lists the one count 5, kept by the zero card |
| CamelCards.FindMaxCard | solutions/day7.go:230-235 | the loop finds a most frequent card other than the Joker, with its count, or the zero card when there is none |
| CamelCards.ListCounts | solutions/day7.go:243-245 | the loop lists each card's count once, and the counts add up to the number of cards |
| CamelCards.NewCamelHand | solutions/day7.go:169-180 | succeeds exactly when there are at most five bytes and each is a card; the cards fill the array from the left and the type is that of the multiset |
| CamelCards.FillCards | solutions/day7.go:173-175 | the loop fills the array from the left and fails on a sixth byte or a byte that is no card |
| CamelCards.InsertPos | solutions/day7.go:81-98 | the position goes past every hand the new one is not less than and stops at the first it is less than |
| CamelCards.InsertedContents | solutions/day7.go:71-100 | inserting adds exactly the new hand to the list |
| CamelCards.InsertStable | solutions/day7.go:81-98 | in a sorted list, the new hand lands after every hand it is not less than and before every hand it is less than |
| CamelCards.InsertSorted | solutions/day7.go:71-100 | inserting into a sorted list keeps it sorted |
| CamelCards.InsertAllSorted | solutions/day7.go:324-335 | inserting hands one by one into an empty game gives a sorted list holding exactly those hands |
| CamelCards.InsertPosUnique | solutions/day7.go:81-98 | the insertion position is the only place with no greater hand before it and a greater hand at it |
| CamelCards.RankStartsRun | solutions/day7.go:111-122 | a hand's rank is the position, from 1, where the run of equal cards that holds it starts |
| CamelCards.PrefixWinningsNoTies | solutions/day7.go:111-122 | without two equal neighbours the loop adds bid times position |
| CamelCards.WinningsNoTies | solutions/day7.go:102-126 | without ties and with `length` the number of hands, the winnings are bid times position summed |
| CamelCards.LastHandIgnoresTie | solutions/day7.go:112-123 | ties share a rank except at the last hand, which always counts the whole length: two equal hands win their first bid once and their second twice |
| CamelCards.HandsOfFails | solutions/day7.go:327-331 | one fatal line makes the whole input fail |
| CamelCards.HandsStep | solutions/day7.go:327-331 | reading one more line inserts one more hand |
| CamelCards.CamelHand.constructor | solutions/day7.go:139-144 | a new node holds the given hand and no successor |
| CamelCards.CamelGame.constructor | solutions/day7.go:325 | an empty game has no hands and length 0 |
| CamelCards.CamelGame.Winnings | solutions/day7.go:102-126 | the sum is the bids times their ranks over all hands but the last, plus the last bid times `length`, from the list the game holds |
| CamelCards.CamelGame.InsertHand | solutions/day7.go:71-100 | `length` grows by one and the list of hands becomes the stable sorted insert of the new hand, with the new node as the only new object |
| CamelCards.CamelGame.Locate | solutions/day7.go:88-96 | the walk stops at the node right before the insertion position |
| CamelCards.CamelGame.LinkFirst | solutions/day7.go:81-85 | the hand becomes the head, before the rest of the list |
| CamelCards.CamelGame.LinkAfter | solutions/day7.go:89-98 | the hand is spliced in right after the k-th node |
| CamelCards.ParseHand | solutions/day7.go:337-346 | succeeds exactly when the line has two fields, the first a hand and the second an integer bid, and returns that hand |
| CamelCards.Parse | solutions/day7.go:324-335 | succeeds exactly when every line is a hand; the game then holds the hands inserted in turn, and its length is the number of lines |
| CamelCards.Day7 | solutions/day7.go:22-30 | the winnings of the game built by inserting the hands of the lines in turn |
| Wasteland.DirectionOf | solutions/day8.go:84-89 | `R` gives direction 1 and every other byte 0, including `L` and bytes the switch does not name |
| Wasteland.RingNode.constructor | solutions/day8.go:80-81 | a new node holds its direction and its byte, and no successor |
| Wasteland.RingSuccessor | solutions/day8.go:99-103 | following `next` from node i of the ring leads to node i + 1, and from the tail back to the head |
| Wasteland.DirectionRing.constructor | solutions/day8.go:131 | an empty ring has no nodes and length 0 |
| Wasteland.DirectionRing.Insert | solutions/day8.go:79-105 | `length` grows by one and the byte's direction and literal are appended after the tail; the old nodes stay in order, the tail points back to the head, and a first node points to itself |
| Wasteland.DirectionRing.LinkTail | solutions/day8.go:99-104 | the old tail points to the new node, which becomes the tail and points back to the head |
| Wasteland.ParseRing | solutions/day8.go:130-137 | the ring holds the directions and the bytes of the line in order, and its length is the length of the line |
| Wasteland.WalkReachedFrom | solutions/day8.go:43-52 | a walk that ends at the end node stopped at the first step reaching it |
| Wasteland.WalkReachedEnd | solutions/day8.go:43-52 | a walk whose first reach of the end node is within the budget returns that step count |
| Wasteland.WalkReached | solutions/day8.go:36-55 | the walk returns n steps exactly when step n is the first to reach the end node |
| Wasteland.WalkMissingNode | solutions/day8.go:45-48 | a walk that reaches a node without a mapping before the end node is fatal |
| Wasteland.TraverseDesert | solutions/day8.go:36-55 | following the ring from its head and the node map, the loop gives the walk from `start` to `end`: the first step count reaching `end`, fatal on an unmapped node, an empty ring or a choice past the end of the list |
| Wasteland.EntryWellFormed | solutions/day8.go:146-151 | a line `X = (A, B)` gives X the choices [A, B] |
| Wasteland.SplitEntry | solutions/day8.go:146 | the name and the parenthesised choices split apart at ` = ` |
| Wasteland.TrimChoices | solutions/day8.go:150 | trimming the parentheses leaves the choices |
| Wasteland.SplitChoices | solutions/day8.go:151 | the choices split apart at `, ` |
| Wasteland.MapOfFails | solutions/day8.go:147-148 | one line that is not two parts round ` = ` makes the whole map fail |
| Wasteland.ParseDirections | solutions/day8.go:139-155 | succeeds exactly when every non-blank line splits in two at ` = `, and the map then gives each name the choices of its last line |
| Wasteland.Parse | solutions/day8.go:122-128 | the ring is made from the first line, and the map from the other lines |
| Wasteland.Day8 | solutions/day8.go:12-21 | the walk from AAA to ZZZ over the ring of the first line and the map of the rest |
| Oasis.DifferencesOf | solutions/day9.go:41-45 | a list holding the neighbouring differences of a record is its difference list |
| Oasis.PredictValue | solutions/day9.go:36-56 | one pass builds the difference list and the flag; the result is the extrapolated next value: 0 when every value after the first is zero, else the last value plus the prediction of the differences |
| Oasis.SingleValuePredictsZero | solutions/day9.go:38-53 | a record of one value predicts 0, whatever that value is |
| Oasis.PredictionExtendsTable | solutions/day9.go:51-55 | with the flag down, the predicted value extends the record so that its differences gain the predicted difference |
| Oasis.DifferencesAppend | solutions/day9.go:41-45 | appending a value appends its difference to the last value |
| Oasis.PredictionSumsLastValues | solutions/day9.go:36-56 | the prediction is the sum of the last values down the difference table |
| Oasis.ProgressionPrediction | solutions/day9.go:36-56 | an arithmetic progression of at least three values with a nonzero step is extended by its step |
| Oasis.ProgressionSteps | solutions/day9.go:41-45 | every difference of a progression is its step |
| Oasis.ShortProgressionPrediction | solutions/day9.go:46-53 | the two values -d, 0 predict 0 rather than d, because the flag looks only at the values after the first |
| Oasis.PredictionConstant | solutions/day9.go:36-56 | a record whose values all equal d predicts d, or 0 when d is 0 or the record has one value |
| Oasis.ZeroFlagLooksAtValues | solutions/day9.go:46-53 | 5, 0, 0 predicts 0, although its differences are not all zero |
| Oasis.LineRecords | solutions/day9.go:73-84 | one parsed record per line, in order |
| Oasis.ParseReportLines | solutions/day9.go:70-87 | the report parses exactly when every line does, and then holds each line's record in order |
| Oasis.Parse | solutions/day9.go:70-87 | succeeds exactly when every field of every line is an integer, and returns the records of the lines in order |
| Oasis.Day9 | solutions/day9.go:13-23 | the sum of the predictions of the records |
| GoStrings.Fields | solutions/day9.go:76 | every field of `strings.Fields` is non-empty and free of white space |
| GoStrings.FieldsOfWord | solutions/day7.go:338 | a field followed by nothing or by white space is split off first |
| GoStrings.FieldsLeadingSpace | solutions/day4.go:164 | leading white space does not make a field |
| GoStrings.FieldsJoinSpaced | solutions/day5.go:199 | fields joined with single spaces are split back by `strings.Fields` into the same fields |
| GoStrings.FindFrom | solutions/day8.go:146 | the index found is the first occurrence of the separator at or after `from`, or -1 when there is none |
| GoStrings.Split | solutions/day4.go:143 | `strings.Split` with a non-empty separator always gives at least one piece |
| GoStrings.JoinSplit | solutions/day4.go:143 | joining the pieces of `strings.Split` with the separator gives back the text |
| GoStrings.SplitClean | solutions/day8.go:151 | text without the separator's first character is one piece |
| GoStrings.SplitAfterClean | solutions/day6.go:125 | a separator after text that cannot contain it splits that text off first |
| GoStrings.TrimLeft | solutions/day8.go:150 | removes exactly the leading run of cutset characters |
| GoStrings.TrimRight | solutions/day8.go:150 | removes exactly the trailing run of cutset characters |
| GoStrings.TrimWrapped | solutions/day8.go:150 | `strings.Trim` removes exactly one wrapping character on each side when the text inside does not start or end with one |
| GoStrings.TrimSuffixChar | solutions/day5.go:186 | `strings.TrimSuffix` removes the character exactly when the text ends with it |
| Collections.CardUpdate | solutions/day7.go:236-240 | setting a card's count in a count map changes the number of cards by the difference of the counts |
| Collections.SumFront | solutions/day9.go:55 | the sum of a slice is its first element plus the sum of the rest, as the recursion of `predictValue` adds the last values |
| Wrappers.AllSomeValues | utils/conversions.go:8-20 | converting a list succeeds exactly when every element converts, and then holds the converted values in order |
| CubeConundrum.Lexer.ReadToken | 2023/day2.go:272-299 | the `switch` of `NextToken` returns the token that starts at the current byte and stands just past it |
| CubeConundrum.Lexer.Shift | 2023/day2.go:268-300 | seen through the token list, one `NextToken` returns the first token still to read and leaves the others |
| CubeConundrum.LexerStep | 2023/day2.go:268-300 | the token the lexer reads from a text is the first of the text's token list, and the text after it holds the others |
| CubeConundrum.OpenLexer | 2023/day2.go:129-136 | `newParser` opens a lexer on the line and reads its first two tokens |
| CubeConundrum.ScanSetsStep | 2023/day2.go:161-166 | one `parseSet` of the loop appends what it reads, and the loop goes on where it stopped |
| CubeConundrum.ResultLoop | 2023/day2.go:214-241 | `parseResult`'s loop never moves `curr` back |
| CubeConundrum.SetSpec | 2023/day2.go:171-183 | `parseSet` never moves `curr` back |
| CamelCards.ReadLine | solutions/day7.go:328-330 | one pass of `Parse`: a fatal line fails the whole input; otherwise the new hand is inserted, the game holds the hands of the lines read so far, and `length` grows by one |
| CamelCards.CamelGame.InsertIntoList | solutions/day7.go:81-99 | in a list with a head, the hand goes before the head if it is less, else after the node the walk stops at; the list of hands becomes the stable sorted insert |
| SeedAlmanac.NextTokensBlock | solutions/day5.go:178-191 | `getNextTokens` reads a block of scanned lines up to its empty line and leaves the lines after it |
| SeedAlmanac.NextTokensLast | solutions/day5.go:178-191 | the last block runs to the end of the input |
| SeedAlmanac.ParseInstructionsFormat | solutions/day5.go:207-212 | the lines of a list of rules are read back as the same rules in order |
| SeedAlmanac.CreateAlmanacSteps | solutions/day5.go:165-176 | `createAlamanac` reads the seeds and then the seven maps in order, each scan on the lines the one before it left |
| GearRatios.RunFound | solutions/day3.go:108-124 | without a symbol in column 0, a number starting at column i is kept by this version exactly when the first version (2023/day3.go) finds a symbol around it |
| GearRatios.SymbolNearColumns | 2023/day3.go:91-123 | without a symbol in column 0, the columns the first version checks for a symbol are those of this version's window |
| GearRatios.CheckedPart | solutions/day3.go:112-117 | `checkNumber`'s answer at the start of a run is the part found there |
| GearRatios.ScanRunNumbers | solutions/day3.go:113-122 | a number at a run is kept as its part says, and the scan resumes at the end of the run |
| GearRatios.ScanRunGears | solutions/day3.go:117-122 | a number at a run is filed under its gear as its part says, and the scan resumes at the end of the run |
| EngineParts.ScanNoRun | 2023/day3.go:76-78 | a column where no digit run starts adds no part |
| Utils.StringSliceToIntSliceOf | utils/conversions.go:8-20 | strings that each convert to the matching integer convert to the list of those integers |
| Trebuchet.FirstDigitOfMirror | 2023/day1.go:58 | in a text that holds the runes back to front, the first digit sits where the last digit of the original sits, counted from the other end |
| Scratchcards.MatchCounts | solutions/day4.go:29 | one match count per card, equal to the size of its `matches` set |
| Wasteland.WalkSkip | solutions/day8.go:43-52 | walking on from step k to a later step j, past no end node, is the walk from step j with that many fewer steps of budget |
| Oasis.Differences | solutions/day9.go:41-45 | the difference list has one element fewer than the record |

## Left out

- BoatRace.AttemptRace: Go's `int` is 64 bits wide, but the model's arithmetic is unbounded, so the wrap-around of `velocity(Time-i)*i` on huge inputs is not modelled.
- CamelCards.CamelGame.Winnings: the sum of bid times rank is unbounded here; Go's 64-bit wrap-around is not modelled.
- Scratchcards.ScoreGame: 2^(n-1) is unbounded here, and `math.Pow` works in floating point, converted to a 64-bit `int`; neither rounding nor wrap-around is modelled. The requires `numMatches >= 1` follows the only caller, `scoreGame`, which returns 0 first when there are no matches (solutions/day4.go:174-177).
- BoatRace.Day6: the product of the race results is unbounded; Go's 64-bit wrap-around is not modelled.
- Strconv.Atoi: digit strings whose value needs more than 64 bits are accepted with their exact value. Go's `strconv.Atoi` returns a range error there, which is fatal in utils/conversions.go and gives a `nil` set in 2023/day2.go:220-223; so `Game 1: 99999999999999999999 red` gives a set here and none in Go.
- Wrappers.AllSomeValues: `log.Fatalf`, `log.Fatal` and index panics are modelled as `None` or `ok = false`. The process exit, the log message and the partial output printed before it are not modelled.
- CubeConundrum.WellFormed: the parser loops forever when a `:` or `;` is not followed by a number (2023/day2.go:161-166, 210-212). The parser's methods require every such token to be followed by a number, so a hanging input is excluded rather than modelled.
- EngineParts.Schematic: the first day-3 solver's methods, and the same precondition in `GearRatios`, require two things. Every non-empty line must be as wide as the first, because `prev[i]` and `next[i]` are indexed with `curr`'s bound. No number may have a leading zero, because the scan skips a number by its digit count. Go panics on a shorter neighbour row and mis-skips a number with a leading zero. The predicate also constrains lines after the first empty line, which Go never reads; an empty `input[0]` therefore forces every later line to be empty.
- BoatRace.RaceResult: the requires `record.time >= 0` excludes a negative race time, on which the first loop of `AttemptRace` (`i != 0`, counting down) runs for practically ever.
- Oasis.Day9: the requires of non-empty records excludes a blank input line, which `Oasis.Parse` turns into an empty record and on which Go panics at `r[0]` (solutions/day9.go:38).
- Oasis.PredictValue: the requires `|r| > 0` is the same `r[0]` panic, for one record.
- Utils.LengthOfInt: the requires `n >= 1` excludes 0 and negative numbers, where `math.Log10` gives minus infinity or NaN and the conversion to `int` is not defined by the language. The day-3 callers pass the value of a digit run, and `EngineParts.Schematic` excludes a run that starts with `0`, so every value they pass is at least 1; a lone `0` in a schematic is not modelled.
- Utils.MakeRange: the requires `min <= max` excludes a negative length, on which Go's `make` panics; no caller asks for one.
- Trebuchet.StrToInt: the requires `i < |chars|` is the bounds check of `chars[i]`; its caller only passes indices inside the line.
- Scratchcards.ParseGame: the requires of non-empty delimiters follows the only parser the solver builds, `newGameParser(":", "|")`. Go's `strings.Split` with an empty separator splits into single characters, which is not modelled.
- Wasteland.TraverseDesert: the source has no step bound and loops forever on an input whose walk never reaches the end node. The model takes a `fuel` bound and returns `OutOfFuel` when it runs out, so walks longer than the bound are not modelled, and `Day8` takes the bound as a parameter.
- GoStrings.Fields: bytes are modelled as `char`. `IsSpace` is the ASCII white space set, while Go's `strings.Fields` uses `unicode.IsSpace`, which also covers U+0085, U+00A0 and other Unicode spaces. UTF-8 decoding is not modelled, and 2023/day1.go's runes are the characters of the line.
- GearRatios.EngineSchematic.AdvanceLines: `bufio.Reader.ReadBytes` and `bufio.Scanner` are modelled as a sequence of lines. The scanner's 64 KiB token limit, read errors and the reader's buffering are not modelled.
- EngineParts.EngineSchematic.AdvanceLines: `next := input[read]` copies a value. Go stores `s.scanner.Bytes()` (2023/day3.go:48), a slice into the scanner's buffer. The scanner reuses that buffer on later `Scan` calls, so once it shifts and refills the buffer, `s.prev` and `s.curr` may hold bytes of later lines. The model keeps the true previous lines, so it describes the program as if each line had been copied; the aliasing is not modelled.
- CubeConundrum.UpdateLeastUpperBound: `Rules.Update` mutates its receiver in Go (2023/day2.go:81-91). Here it is a pure function returning the new counts, and `Parse` threads the value through its fold.
- CamelCards.MatchCards: Go ranges over its count map in an unspecified order. The model takes the counts as a multiset listed in some order, and `DetermineTypeOfListing` proves the type does not depend on that order; which most frequent card receives the jokers is left open the same way (`TypeOfChoiceFree`).
- GearRatios.SumGearRatios: the range loop over the gear map visits the keys of a set in an arbitrary order, and `GearSumRemove` proves the total does not depend on it.
- CamelCards.Day7: `gameChoice` (solutions/day7.go:32-46) reads standard input, so the joker rule is a parameter here; the `flag` definitions, `slog` and `fmt` output, and the `String()` formatters of every solver are not modelled.
- EngineParts.EngineSchematic.IsEnginePart: 2023/day3.go's `determineNumber`, `makeRange` and `lengthOfInt` are modelled by `Utils.FindNumberInBytes`, `Utils.MakeRange` and `Utils.LengthOfInt`, which they mirror line for line; `isDigit`, which 2023/day3.go calls but does not define, is taken to be `Utils.IsDigit` (ASCII `0`..`9`).
- CamelCards.DetermineType: `utils.Contains` is not part of this model; it is taken to be membership in the slice.
- CubeConundrum.Parser.Parse: `Day2`, `newGame` and `solveGame` in 2023/day2.go (lines 13-31 and 112-120) open the input file, compare each game with the fixed bag and print the answer; they are outside the modelled core and not modelled.
- BoatRace.Parse: `AlternateParse` (solutions/day6.go:98-120), which joins the fields of each line into one number, is not called by `Day6` and is not modelled.
- Oasis.Day9: `Predict` (solutions/day9.go:27-34) only logs the result of `predictValue`, so `Day9` adds up `PredictValue` results directly.
- SeedAlmanac.LowestLocation: the commented-out range expansion (solutions/day5.go:53-82) and the commented-out helpers (solutions/day5.go:135-157) are not modelled, and no range splitting is added.
- main.go, with its flag parsing, interactive day choice, logger set-up and dispatch table, is not part of this model, and neither is `utils.BuildDataPath`, which only formats a file name.
- Helpers that only break a proof into steps (splitting a sequence, one step of an induction, arithmetic facts) have no row in the table.

# Advent of Code 2016 puzzle kernels, modelled in Dafny

This project models the Rust solutions in caffineehacker/advent2016.
The main part is the "assembunny" register machine in its three versions:

- day12: `cpy`, `inc`, `dec` and `jnz`.
- day23: adds `tgl`, which rewrites the program in place.
- day25: adds `nop`, `add` and `out`, run as trials over seeds of register a.

The other puzzle kernels are modelled beside it, one module per day.

Panics (`unwrap`, `expect`, `panic!`, an index out of range) are modelled
as the `Panic` case of `Common.Result`. Input lines are parameters. Loops
that the programs run until they halt are given a `fuel` bound.

Where a program's answer departs from what the puzzle asks, the model
follows the code (see "## Findings"): Firewall.Answers and Firewall.Solve
compute day20's part 1 as the program does, and Firewall.IntendedAnswers
computes the lowest allowed address instead. The puzzle's toggle example
ends with 3 in register a (`SafeCracking.ExampleEndsWithThree`).

Each imperative loop is a `method`. Its `ensures` ties the result to a
functional specification, and lemmas state the properties of that
specification.

Shared modules:

- `Common`: `Option` and `Result`.
- `Text`: the Rust string operations the programs use (`split_whitespace`,
  `parse` for the integer types, `split_once`, `split`, `trim`,
  `trim_start_matches`, `trim_end_matches`).
- `Sorting`: a stable sort by a total preorder.
- `Assembunny`: registers, operands and the register file shared by the
  three interpreters.

## Model

| member | source | states |
|---|---|---|
| Assembunny.ParseRegister | day12/src/main.rs:18-28 | exactly "a" to "d" parse, each to the register of that name; any other token panics |
| Assembunny.ParseOperand | day12/src/main.rs:36-44 | a token that parses as i32 is that immediate; otherwise it must be a register name, and it panics exactly when it is neither |
| Assembunny.OperandRoundTrip | day12/src/main.rs:36-44 | printing an operand with an i32 immediate and parsing it back gives the same operand |
| Assembunny.RegisterRoundTrip | day12/src/main.rs:18-28 | a register's name parses back to that register |
| Assembunny.OperandToken | day12/src/main.rs:36-44 | a written-out operand is one non-empty token without whitespace |
| Assembunny.SetOperand | day23/src/main.rs:108-116 | writing through an immediate destination changes nothing; through a register it sets that register and no other |
| Monorail.ParseInstruction | day12/src/main.rs:54-73 | only cpy/inc/dec/jnz parse; for each opcode the line parses exactly when its operand tokens are present and valid (cpy: an operand and a register; inc, dec: a register; jnz: an operand and an i32), and then gives that opcode's instruction built from those tokens, with the stored jnz offset the literal minus one |
| Monorail.ParseShow | day12/src/main.rs:54-73 | every instruction with i32 immediates, written out in the puzzle's form, parses back to itself, so each opcode word yields its own constructor |
| Monorail.Execute | day12/src/main.rs:99-123 | the loop over a mutable register file ends in the state the step semantics reaches from pc 0 and all-zero registers within the fuel, and it reports halted exactly when pc is outside [0, len) |
| Monorail.CopyWritesOnlyDestination | day12/src/main.rs:103-108 | cpy writes its destination with the immediate or the source register's value, leaves the other registers, and moves pc by 1 |
| Monorail.IncDecChangeOneRegister | day12/src/main.rs:109-110 | inc and dec change exactly one register, by +1 or -1 |
| Monorail.JumpMovesByLiteral | day12/src/main.rs:62-69 | a taken jump parsed from `jnz x L` moves pc by exactly L; an untaken one by 1; no register changes |
| Monorail.RunSplits | day12/src/main.rs:101-123 | running a+b passes is running a passes and then b more |
| Monorail.HaltedRunIsFinal | day12/src/main.rs:101 | once pc has left the program, more fuel changes nothing |
| SafeCracking.ParseInstruction | day23/src/main.rs:55-68 | only cpy/inc/dec/jnz/tgl parse; cpy and jnz parse exactly when tokens 1 and 2 are operands and give Copy or JumpNotZero of those operands; inc, dec and tgl parse exactly when token 1 is a register and give that opcode's instruction on it |
| SafeCracking.ParseShow | day23/src/main.rs:55-68 | every instruction with i32 immediates, written out, parses back to itself |
| SafeCracking.Execute | day23/src/main.rs:96-150 | the loop over mutable register and instruction arrays ends in the state the step semantics reaches from the seeded registers; the program keeps its length; halted exactly when pc is outside [0, len) |
| SafeCracking.FlipTwice | day23/src/main.rs:138-144 | flipping twice restores inc, dec, cpy and jnz with their operands; tgl becomes inc and then dec |
| SafeCracking.ToggleChangesOnlyTarget | day23/src/main.rs:134-146 | tgl flips only the instruction at pc + value(r), keeps the length and every register; a target outside [0, len), negative included, leaves the program unchanged |
| SafeCracking.CopyToImmediateIsNoOp | day23/src/main.rs:108-116 | a cpy to an immediate changes nothing but pc |
| SafeCracking.JumpMovesByOffset | day23/src/main.rs:119-133 | a taken jnz moves pc by exactly its run-time offset, an untaken one by 1 |
| SafeCracking.RunKeepsLength | day23/src/main.rs:137-145 | no run of the program changes its length |
| SafeCracking.ExampleEndsWithThree | day23/src/main.rs:103-150 | the toggling example program halts at pc 7 with registers [3, 0, 0, 0] |
| ClockSignal.ParseInstruction | day25/src/main.rs:58-73 | only nop/add/cpy/inc/dec/jnz/out parse; nop always parses; add, cpy and jnz parse exactly when tokens 1 and 2 are operands and give that opcode's instruction on them; inc and dec need a register and out an operand in token 1 |
| ClockSignal.ParseShow | day25/src/main.rs:58-73 | every instruction with i32 immediates, written out, parses back to itself |
| ClockSignal.RunTrial | day25/src/main.rs:105-175 | one trial for seed a ends in the state the step semantics reaches from pc 0, registers [a, 0, 0, 0] and no previous output |
| ClockSignal.Sweep | day25/src/main.rs:99-104 | trial i of the sweep is the trial for seed i, for seeds 0, 1, 2, ... in order |
| ClockSignal.RegisterOutStep | day25/src/main.rs:155-161 | a register out stops the trial exactly when its value equals the previous output; otherwise it records the value and moves on |
| ClockSignal.ImmediateOutStep | day25/src/main.rs:154 | an immediate out prints its value and neither records nor stops |
| ClockSignal.AddAndNopStep | day25/src/main.rs:117-126 | add into a register adds the source value and leaves the others; add into an immediate and nop change only pc |
| ClockSignal.RunKeepsOutputInvariant | day25/src/main.rs:157-161 | running keeps the recorded outputs free of equal neighbours, with last_out the last of them |
| ClockSignal.TrialOutputsAlternate | day25/src/main.rs:105-175 | every trial's recorded outputs have no two equal neighbours |
| ClockSignal.BinaryOutputsAreClock | day25/src/main.rs:157-161 | recorded outputs that are all 0 or 1 alternate: element i is (first + i) mod 2 |
| ClockSignal.ExampleStopsOnRepeat | day25/src/main.rs:153-161 | `cpy 1 a, out a, cpy 2 a, out a, out a` records 1 and 2 and stops at the third out |
| Scrambling.ParseOperation | day21/src/main.rs:31-100 | the first token picks swap/rotate/reverse/move and swap needs "position" or "letter" as token 1; for each form the line parses exactly when the tokens it reads exist and its numbers are usize (swap position and move: tokens 2 and 5; reverse: 2 and 4; rotate left or right: 2; swap letter: the last characters of tokens 2 and 5; rotate based: token 6), and then gives that form's operation on those values; `rotate right` rotates right and any other word but "based" left |
| Scrambling.ParseShow | day21/src/main.rs:31-100 | every operation with usize numbers and non-space letters, written in the puzzle's wording, parses back to itself |
| Scrambling.LeftAmount | day21/src/main.rs:55-70 | the left-rotation amount is below the length, and it exists exactly when the password is non-empty and, for a letter-based rotation, the letter occurs |
| Scrambling.Apply | day21/src/main.rs:33-99 | every operation that succeeds keeps the length, and every one but `swap letter` keeps the multiset of letters |
| Scrambling.SwapLettersInPlace | day21/src/main.rs:44-50 | the `iter_mut` pass leaves the array holding the letter-swapped password |
| Scrambling.SwapPositionsInPlace | day21/src/main.rs:37-39 | the two assignments through `temp` swap the two positions of the array |
| Scrambling.ApplyInPlace | day21/src/main.rs:33-99 | one instruction on the password array gives exactly the result of `Apply`, the same panic included; swaps act on the array itself, the other operations build a new one |
| Scrambling.Scramble | day21/src/main.rs:29-107 | the loop over the instruction lines ends with the password that applying the parsed lines in order gives, or with the panic of the first line that fails |
| Scrambling.PanicPersists | day21/src/main.rs:30-101 | once a line panics, later lines do not change the outcome |
| Scrambling.SwapPositionMeaning | day21/src/main.rs:34-40 | `swap position X with Y` exchanges exactly positions X and Y |
| Scrambling.SwapLetterMeaning | day21/src/main.rs:41-51 | `swap letter X with Y` turns each X into Y and each Y into X and keeps every other letter |
| Scrambling.SwapLettersCounts | day21/src/main.rs:41-51 | after the swap there are as many X as there were Y before and vice versa; other letters keep their counts |
| Scrambling.SwapLetterChangesLetters | day21/src/main.rs:41-51 | swapping with a letter the password lacks changes its multiset of letters (`ab` with a/c gives `cb`) |
| Scrambling.RotateLeftMeaning | day21/src/main.rs:70-78 | a left rotation by n puts old[(i + n) mod len] at i; a multiple of the length is the identity |
| Scrambling.RotateRightMeaning | day21/src/main.rs:65-78 | a right rotation by n moves the letter at i to (i + n) mod len |
| Scrambling.RotateRightAsLeft | day21/src/main.rs:65-70 | a right rotation by n equals the left rotation by (len - n mod len) mod len |
| Scrambling.RotateBasedAmount | day21/src/main.rs:56-62 | rotating on letter X rotates right by 1 + the first index of X, plus 1 when that index is at least 4 |
| Scrambling.ReverseMeaning | day21/src/main.rs:80-95 | reversing X through Y mirrors the inclusive slice [X, Y] and keeps the prefix and the suffix |
| Scrambling.MoveMeaning | day21/src/main.rs:96-99 | `move X to Y` puts the letter from X at Y and leaves the others in order; it succeeds exactly when both indices are inside the password |
| Scrambling.ApplyPanics | day21/src/main.rs:35-99 | swap position panics exactly on an index out of range; swap letter never; a rotation exactly on an empty password or an absent letter; a reversal exactly when `end + 1` overflows or is below `start` |
| Scrambling.SwapPositionTwice | day21/src/main.rs:34-40 | a position swap undoes itself |
| Scrambling.SwapLetterTwice | day21/src/main.rs:41-51 | a letter swap undoes itself |
| Scrambling.RotateLeftThenRight | day21/src/main.rs:63-78 | a right rotation by n undoes a left rotation by n |
| Scrambling.RotateRightThenLeft | day21/src/main.rs:63-78 | a left rotation by n undoes a right rotation by n |
| Scrambling.ReverseTwice | day21/src/main.rs:80-95 | any reversal that succeeds undoes itself, whatever its bounds |
| Scrambling.MoveBack | day21/src/main.rs:96-99 | `move Y to X` undoes `move X to Y` |
| DragonChecksum.ShowBits | day16/src/main.rs:47-49 | the printed answer has one `0` or `1` per bit |
| DragonChecksum.BitsRoundTrip | day16/src/main.rs:18-22 | `0` parses to false and any other character to true: printing parsed 0/1 input gives it back, and parsing printed bits gives the bits back |
| DragonChecksum.DragonShape | day16/src/main.rs:25-28 | one expansion step keeps a as its prefix, appends a 0 and then the complement of a read backwards, so the length becomes twice the old length plus one |
| DragonChecksum.DragonGrows | day16/src/main.rs:24-28 | every pass of the expansion loop makes the data longer, so the loop ends |
| DragonChecksum.CurvePrefix | day16/src/main.rs:24-28 | a curve is a prefix of every curve grown further from it |
| DragonChecksum.DiskData | day16/src/main.rs:24-40 | after the expansion loop and `truncate` the data has exactly `space` bits |
| DragonChecksum.DiskDataIsPrefix | day16/src/main.rs:24-40 | the truncated data is a prefix of every curve grown from the input at least as far as the loop grew it |
| DragonChecksum.Fill | day16/src/main.rs:18-40 | the expansion loop with `push` and `append`, then `truncate`, leaves exactly the disk data |
| DragonChecksum.Checksum | day16/src/main.rs:43-61 | the checksum loop, when it ends, leaves data of odd length |
| DragonChecksum.ChecksumStep | day16/src/main.rs:55-60 | one fold halves an even length; bit i is set exactly when bits 2i and 2i + 1 agree |
| DragonChecksum.ChecksumStopsAtOdd | day16/src/main.rs:44-53 | odd-length data is already the checksum; even-length data is folded once more |
| DragonChecksum.ChecksumLength | day16/src/main.rs:43-61 | the checksum's length is the largest odd divisor of the disk size |
| DragonChecksum.ChecksumLoop | day16/src/main.rs:43-61 | the loop ends with the checksum of non-empty data; on empty data it never ends (`None`) |
| DragonChecksum.Solve | day16/src/main.rs:18-61 | the program prints the checksum of the disk data for a positive `space`; for `space` 0 it never finishes |
| DragonChecksum.ExampleDisk | day16/src/main.rs:18-40 | `10000` on a disk of 20 is filled with `10000011110010000111` |
| DragonChecksum.ExampleChecksum | day16/src/main.rs:43-61 | `110010110100` folds to `110101` and then to the checksum `100` |
| Decompression.Advance | day09/src/main.rs:30-47 | one pass of the loop body: a plain character moves on by 1 and adds 1; a marker moves past its `)` and its S characters and adds S * C; a malformed marker panics as the whole scan does; the index always grows |
| Decompression.Scan | day09/src/main.rs:27-48 | the loop's result is the decompressed length of the line, or the panic of its first malformed marker |
| Decompression.Solve | day09/src/main.rs:25-48 | the program's answer is the decompressed length of the first line; no first line panics |
| Decompression.NoMarkerLength | day09/src/main.rs:29-34 | text without `(` has a decompressed length equal to its character count |
| Decompression.ParseMarkerMeaning | day09/src/main.rs:42-44 | a marker parses exactly when its text splits at an `x` into two `usize` numbers, the first the size and the second the count |
| Decompression.MalformedMarkerPanics | day09/src/main.rs:42-44 | a marker whose text is not two numbers separated by `x` makes the scan panic |
| Decompression.MarkerSkipsItsText | day09/src/main.rs:36-47 | a marker adds S * C and resumes after its S characters, which are not scanned: changing them leaves the length unchanged |
| Decompression.LengthFromSuffix | day09/src/main.rs:29-48 | the scan from an index depends only on the text from that index on |
| Decompression.TakeUntilStops | day09/src/main.rs:36-40 | the marker text is the longest prefix after `(` without `)`, and it is followed by `)` when it stops before the end |
| Decompression.TakeUntilAgrees | day09/src/main.rs:36-40 | the marker text depends only on the characters up to and including the first `)` |
| Decompression.ExampleMarker | day09/src/main.rs:42-44 | the marker text `1x5` has size 1 and count 5 |
| Decompression.ExampleEncoding | day09/src/main.rs:36-40 | in `A(1x5)BC` the marker at index 1 has the text `1x5` |
| Decompression.ExampleLength | day09/src/main.rs:27-48 | `A(1x5)BC` decompresses to length 7 |
| Tls.SupportsTlsLoop | day07/src/main.rs:33-54 | the loop's answer, early `return false` included, is: some ABBA outside brackets and none inside, over the starts below `len() - 3`; an address shorter than 3 panics |
| Tls.ScanOneMore | day07/src/main.rs:38-50 | passing index i, `[` sets the bracket state, `]` clears it, and an ABBA at i is recorded as outside or inside by that state |
| Tls.InsideRejects | day07/src/main.rs:43-46 | an ABBA that starts inside brackets makes the answer false whatever else the address holds |
| Tls.SupportsTlsMeaning | day07/src/main.rs:38-53 | the answer is true exactly when some ABBA lies outside brackets and none inside; short addresses panic and length 3 gives false |
| Tls.InBracketsMeaning | day07/src/main.rs:39-42 | the bracket state at i holds exactly when some `[` before i has no `]` after it and before i |
| Tls.TlsCount | day07/src/main.rs:25-29 | the count of supporting addresses is at most the number of lines |
| Tls.TlsCountSplit | day07/src/main.rs:25-29 | the count over two runs of lines is the sum of their counts |
| Tls.TlsCountMeaning | day07/src/main.rs:25-29 | the count is the number of lines whose address supports TLS |
| Tls.TlsCountPanics | day07/src/main.rs:25-29 | the count panics exactly when some address is shorter than 3 |
| Tls.ExampleSupported | day07/src/main.rs:33-54 | `abba[mnop]qrst` supports TLS |
| Tls.ExampleInsideBrackets | day07/src/main.rs:33-54 | `abcd[bddb]xyyx` does not support TLS |
| Rooms.NameLetters | day04/src/main.rs:53-57 | the counted letters are all lower-case |
| Rooms.NameLettersStop | day04/src/main.rs:53-57 | counting stops at the first character that is neither `-` nor a lower-case letter: nothing after it is counted |
| Rooms.NameLettersOfName | day04/src/main.rs:53-57 | on text of letters and dashes every letter is counted as often as it occurs and `-` never |
| Rooms.CountLetters | day04/src/main.rs:51-63 | the map holds exactly the letters seen, each with its number of occurrences |
| Rooms.Collect | day04/src/main.rs:65 | the collected vector holds each map entry once, in an order the map leaves open |
| Rooms.RankIsTotal | day04/src/main.rs:66-74 | the comparator orders all entries and ties no two different entries |
| Rooms.CollectedRanking | day04/src/main.rs:65-74 | sorting the collected entries gives the same ranking whatever order the map yielded |
| Sorting.SortedUnique | day04/src/main.rs:66-74 | under an order that ties no two different elements, two sorted sequences with the same elements are equal |
| Rooms.RankingEntries | day04/src/main.rs:51-74 | the ranking holds every counted letter, each with its number of occurrences |
| Rooms.RankingStrict | day04/src/main.rs:66-74 | in the ranking a higher count comes first and equal counts come in alphabetical order |
| Rooms.DistinctRanks | day04/src/main.rs:65-74 | no letter holds two ranks |
| Rooms.CompareLoop | day04/src/main.rs:77-83 | the loop returns false at the first mismatch, panics when the checksum outruns the ranking, and returns true otherwise |
| Rooms.CheckRoom | day04/src/main.rs:50-84 | `is_valid` with its map, sort and loop returns the answer of the ranking comparison; a line without `[` panics |
| Rooms.IsValidMeaning | day04/src/main.rs:76-83 | a room is real exactly when each checksum character equals the letter of the same rank; the panic cases are the missing `[` and a checksum that outruns the ranking |
| Rooms.RoomNameMeaning | day04/src/main.rs:97-100 | the room name is the text before `[` up to its last `-` |
| Rooms.NameAndSector | day04/src/main.rs:86-100 | the text before `[` is the room name, a `-`, and the field the sector id is read from |
| Text.AfterLast | day04/src/main.rs:90-92 | the last `-` field is a suffix without `-`, preceded by `-` unless it is the whole text |
| Rooms.DecryptCharMeaning | day04/src/main.rs:38-43 | `-` becomes a space and a lower-case letter moves forward by the id modulo 26 within `a..=z` |
| Rooms.DecryptCharInverse | day04/src/main.rs:38-43 | shifting a letter by the id and then by the rest of 26 gives it back |
| Rooms.DecryptMeaning | day04/src/main.rs:36-44 | a name of letters and dashes decrypts without panic, character by character |
| Rooms.Decrypt | day04/src/main.rs:36-44 | the decrypted name has the length of the name |
| Rooms.FilterChecked | day04/src/main.rs:26 | a filter whose test may panic: it panics exactly when the test panics on some line, and keeps at most the input's lines |
| Rooms.FilterCount | day04/src/main.rs:26 | the filter keeps each line as often as it occurs when the test accepts it, and never otherwise |
| Rooms.FilterConcat | day04/src/main.rs:26 | the filter of a concatenation is the concatenation of the filters, so the input order is kept |
| Rooms.GoodRooms | day04/src/main.rs:26 | `filter(is_valid)` panics exactly when `is_valid` panics on some line, and keeps at most the input's lines |
| Rooms.GoodRoomsKept | day04/src/main.rs:26 | a line is kept exactly when it is a line of the input that `is_valid` accepts, and as often as it occurs there |
| Rooms.GoodRoomsConcat | day04/src/main.rs:26 | the kept lines of two parts follow each other in input order |
| Rooms.SumChecked | day04/src/main.rs:28 | a sum whose values may panic: it panics exactly when some item's value panics, and one item sums to its value |
| Rooms.SumConcat | day04/src/main.rs:28 | the sum over a concatenation is the sum of the two parts |
| Rooms.SectorSum | day04/src/main.rs:28 | part 1 panics exactly when some kept line has no readable sector id, and one room sums to its id |
| Rooms.SectorSumConcat | day04/src/main.rs:28 | the part 1 sum is additive over the kept lines |
| Rooms.SectorSumBound | day04/src/main.rs:28 | each id is a u32, so the sum is at most `u32::MAX` per room |
| Traps.NextRow | day18/src/main.rs:40-51 | the row built cell by cell is the next row: same length, each tile a trap exactly when one of its neighbours above is |
| Traps.Count | day18/src/main.rs:19-37 | the answer is the number of safe tiles over the input row and the next `rows - 1` rows; `rows` 0 panics |
| Traps.RuleAgreesWithPatterns | day18/src/main.rs:43-47 | the exclusive or of the neighbours agrees with the puzzle's four trap patterns; tiles outside the row count as safe |
| Traps.OwnTileIgnored | day18/src/main.rs:43-47 | a tile's own state does not change the tile below it |
| Traps.NeighboursDecide | day18/src/main.rs:43-47 | rows that agree on a tile's two neighbours agree on the tile below |
| Traps.SafeRowStaysSafe | day18/src/main.rs:43-47 | an all-safe row stays all safe in every later row |
| Traps.SafeRowsBound | day18/src/main.rs:21-25 | the count is at most rows times the row length, and exactly that for an all-safe first row |
| Traps.Safe | day18/src/main.rs:21 | a row has at most as many safe tiles as tiles |
| Traps.AllSafeCount | day18/src/main.rs:21 | an all-safe row counts all its tiles |
| Traps.ExampleRows | day18/src/main.rs:40-51 | `..^^.` is followed by `.^^^^` and then `^^..^` |
| Display.ParseCommand | day08/src/main.rs:26-57 | a line parses only as `rect` or `rotate`; `rect WxH` parses exactly when the size splits at `x` and the height is a usize, with the width a usize unless the height is 0, and gives `Rect(W, H)`, or `Rect(0, 0)` for height 0 since the width loop never runs; `rotate row y=R by N` and `rotate column x=C by N` parse exactly when N and the index after `=` are usize and the kind is `row` or `column`, and give `RotateRow(R, N)` or `RotateColumn(C, N)` |
| Display.ParseShow | day08/src/main.rs:26-57 | every command written in the puzzle's wording, with usize numbers, parses back to itself |
| Display.ParsePanics | day08/src/main.rs:27-57 | a first word other than `rect` or `rotate` panics with "Unexpected command"; a well-formed rotation of anything but `row` or `column` panics with "Unexpected rotation" |
| Display.Screen.constructor | day08/src/main.rs:24 | the board starts 50 by 6 and all dark |
| Display.Screen.Rect | day08/src/main.rs:28-35 | `rect AxB` turns on the pixels with x below A and y below B and changes nothing else; it panics when a non-empty rectangle reaches past column 49 or row 5 |
| Display.Screen.RotateRow | day08/src/main.rs:41-46 | the board after the loop is the old one with the row shifted right, wrapping at 50; a row index above 5 panics |
| Display.Screen.RotateColumn | day08/src/main.rs:47-52 | the board after the loop is the old one with the column shifted down, wrapping at 6; a column index above 49 panics |
| Display.Screen.Execute | day08/src/main.rs:27-57 | the board after one command is the value model's next picture, or the command panics exactly when the model does |
| Display.LitAfter | day08/src/main.rs:24-63 | the answer is the number of lit pixels after every line in turn, or the first panic |
| Display.RectMeaning | day08/src/main.rs:30-34 | `rect` lights every pixel of the rectangle, never turns a pixel off and leaves the pixels outside it as they were |
| Display.RotateRowMeaning | day08/src/main.rs:42-45 | pixel (x, R) moves to ((x + N) mod 50, R); the other rows stay as they were |
| Display.RotateColumnMeaning | day08/src/main.rs:48-51 | pixel (C, y) moves to (C, (y + N) mod 6); the other columns stay as they were |
| Display.RowRotationKeepsLit | day08/src/main.rs:41-63 | rotating a row keeps the number of lit pixels |
| Display.ColumnRotationKeepsLit | day08/src/main.rs:47-63 | rotating a column keeps the number of lit pixels |
| Display.LitTwoWays | day08/src/main.rs:60-63 | summing the lit pixels column by column, as the program does, equals summing them row by row |
| Display.RotatedCount | day08/src/main.rs:43-45 | a line rotated by the loops' index arithmetic keeps its number of lit pixels |
| Display.CountConcat | day08/src/main.rs:62 | the lit count of two joined lines is the sum of their counts |
| Modular.ShiftBack | day08/src/main.rs:44 | moving an index forward by n modulo m and back by n returns it |
| Modular.RotIndex | day08/src/main.rs:44 | a right rotation by n reads index i - n mod m, with at most one wrap |
| Firewall.ParseRange | day20/src/main.rs:29-35 | a line `start-end` gives two u32 values; a missing `-` or a value that is not a u32 panics |
| Firewall.SortRanges | day20/src/main.rs:36 | the ranges sorted by start and then by end, a permutation of the input |
| Firewall.FindHolding | day20/src/main.rs:38 | `find` returns the first merged range holding the new start, or nothing when none does |
| Firewall.MergeSorted | day20/src/main.rs:37-45 | the loop with its inner `find` computes the fold over the sorted ranges |
| Firewall.MergeStepShape | day20/src/main.rs:38-41 | on sorted input `find` can only hit the last merged range: a range starting inside it widens it to the larger end, any other range (also one starting right after its end) is pushed; order and separation are kept |
| Firewall.MergeSeparated | day20/src/main.rs:36-45 | the merged ranges are in ascending start order and each start lies above the end of every earlier range |
| Firewall.MergeStepBlocks | day20/src/main.rs:38-42 | one fold step blocks exactly what was blocked before plus the new range |
| Firewall.MergeBlocks | day20/src/main.rs:37-45 | the merged ranges block exactly the addresses the input ranges block |
| Firewall.SortBlocks | day20/src/main.rs:36 | sorting does not change which addresses are blocked |
| Firewall.MergeKeepsU32 | day20/src/main.rs:37-45 | merged ends stay within u32 |
| Firewall.MergeWellFormed | day20/src/main.rs:37-45 | merging keeps every range with its start at most its end |
| Firewall.ParsedKeepU32 | day20/src/main.rs:27-45 | parsed, sorted and merged ranges stay within u32 |
| Firewall.SortKeeps | day20/src/main.rs:36 | sorting keeps the ranges within u32 and well formed |
| Firewall.CountAllowed | day20/src/main.rs:64-68 | the loop computes first start plus the gaps plus `u32::MAX` less the last end, with each u32 subtraction and addition checked; an empty list panics |
| Firewall.TotalsCount | day20/src/main.rs:64-68 | on separated well-formed ranges the running total is the open addresses below the last end seen, so no step overflows or underflows |
| Firewall.TotalAllowedCount | day20/src/main.rs:64-68 | on separated well-formed ranges part 2 is 2^32 less the covered addresses |
| Firewall.SizesBound | day20/src/main.rs:64-68 | a non-empty list covers at least its last range |
| Firewall.Interval | day20/src/main.rs:66 | the addresses from a to b, b - a + 1 of them |
| Firewall.BlockedSet | day20/src/main.rs:37-45 | the set of addresses some range blocks |
| Firewall.BlockedByLast | day20/src/main.rs:37-45 | an address is blocked by a list exactly when the last range or an earlier one blocks it |
| Firewall.BlockedSetSize | day20/src/main.rs:64-68 | separated well-formed ranges block as many addresses as their sizes add up to |
| Firewall.OpenCount | day20/src/main.rs:64-68 | below a top above every range, the open addresses number top + 1 less the covered ones |
| Firewall.AllowedCount | day20/src/main.rs:64-68 | the open u32 addresses number 2^32 less the covered ones |
| Firewall.DifferenceSize | day20/src/main.rs:68 | removing a subset removes its size |
| Firewall.PartTwoCounts | day20/src/main.rs:27-70 | on well-formed input, part 2 is the number of u32 addresses no input range blocks |
| Firewall.MergedShape | day20/src/main.rs:36-45 | merged well-formed input is well formed and separated |
| Firewall.SameAllowed | day20/src/main.rs:27-45 | the merged ranges allow exactly the addresses the input allows |
| Firewall.FirstAllowedAsWritten | day20/src/main.rs:52-60 | part 1 as written: 0 exactly for a single range above 0, otherwise the first end plus one; an empty list panics |
| Firewall.LowestFromMeaning | day20/src/main.rs:52-60 | the scan over ranges in ascending start order stops at an address no range blocks, and every address from its start up to there is blocked |
| Firewall.PartOneLowest | day20/src/main.rs:52-62 | intended part 1 is an allowed u32 address and every lower address is blocked by an input range |
| Firewall.IntendedDiffersInPartOne | day20/src/main.rs:27-70 | wherever the intended answers exist, the program's answers exist too and have the same part 2 |
| Firewall.AsWrittenAgrees | day20/src/main.rs:52-60 | when the first merged range starts at 0 and a gap follows it, the program's part 1 is the lowest allowed address |
| Firewall.AlreadySorted | day20/src/main.rs:36 | sorting leaves sorted ranges unchanged |
| Firewall.AsWrittenMissesZero | day20/src/main.rs:52-60 | `5-8` and `10-12` stay two ranges and the program answers 9, though 0 is allowed |
| Firewall.AsWrittenBlocked | day20/src/main.rs:38-60 | `0-2` and `3-5` stay two ranges and the program answers 3, which `3-5` blocks; the lowest allowed address is 6 |
| Firewall.Answers | day20/src/main.rs:27-70 | both printed answers: they exist only for a non-empty file of valid ranges; part 1 is a u32, 0 exactly when the ranges merge into one range starting above 0, and otherwise the first merged end plus one |
| Firewall.Solve | day20/src/main.rs:27-70 | the program's output: parse, sort and merge, then part 1 by the rule at main.rs:52-60 (`FirstAllowedAsWritten`) and part 2 by the gap count, with every panic on the way |
| Discs.ToDisc | day15/src/main.rs:48-59 | a line gives offset index + 1 + start position and modulus the number of positions; too few tokens or a bad number panics |
| Discs.ParseDiscs | day15/src/main.rs:27-31 | line i becomes `to_disc(i, line)`, every line in order, or the first bad line panics |
| Discs.Wait | day15/src/main.rs:41 | a disc needs between 1 and its number of positions seconds to reach position 0 |
| Discs.Jump | day15/src/main.rs:39-44 | the jump is the largest wait of any disc, whichever furthest disc `max_by_key` picks |
| Discs.Align | day15/src/main.rs:33-45 | the loop computes the search from time 0 |
| Discs.Solve | day15/src/main.rs:27-45 | the program parses the discs, panics on a disc with no positions, and runs the loop |
| Discs.JumpSkipsNothing | day15/src/main.rs:39-44 | no time strictly inside a jump lines up every disc |
| Discs.StepLeast | day15/src/main.rs:39-44 | when no time after the jump and before s lines up, none from t on does either |
| Discs.SearchLeast | day15/src/main.rs:33-45 | the reported time is at least the start, lines up every disc, and no earlier time from the start does |
| Discs.AnswerLeast | day15/src/main.rs:33-45 | the program's time lines up every disc and is the least such time |
| Discs.JumpBounds | day15/src/main.rs:39-44 | each jump moves t forward by at least 1, by at least the chosen disc's wait, and by at most some disc's number of positions |
| Discs.ExampleSample | day15/src/main.rs:33-45 | the puzzle's two discs line up first at time 5 |
| Elves.FirstWinner | day19/src/main.rs:16-42 | part 1 is the elf left with every present when each elf in turn takes from the elf on its left; 1 for no elves; input past `i32::MAX` panics when `skip` doubles past it |
| Elves.PassStart | day19/src/main.rs:16-18 | the bounds hold before the first pass |
| Elves.PassEven | day19/src/main.rs:26-28 | halving an even circle and doubling `skip` keeps the last elf at most n and `skip` a power of two |
| Elves.PassOdd | day19/src/main.rs:26-31 | for an odd circle `next_turn` moves on by the new `skip`, stays at most n, and the bounds hold again |
| Elves.PassPower | day19/src/main.rs:26 | a doubling within `i32` keeps `skip` at 2^k with k at most 30, and input past `i32::MAX` keeps enough elves for another pass |
| Elves.PassRoom | day19/src/main.rs:20-26 | while two or more elves remain, the doubled `skip` is at most n, so input up to `i32::MAX` never overflows |
| Elves.PassEnd | day19/src/main.rs:20 | the loop stops with at most one elf only for input up to `i32::MAX` |
| Elves.HalfBounds | day19/src/main.rs:26-31 | a pass keeps the circle's last elf at most n |
| Elves.EvenRound | day19/src/main.rs:27-28 | a pass round an even circle leaves every other elf from the first, with unchanged winner |
| Elves.OddRound | day19/src/main.rs:29-31 | a pass round an odd circle leaves every other elf from the third, with unchanged winner |
| Elves.EvenOddSplit | day19/src/main.rs:29-31 | the last elf of an odd circle takes from the first, and the turn passes to the third |
| Elves.TurnsOnProgression | day19/src/main.rs:21-24 | after j turns on evenly spaced elves, the untouched ones come first and the j thieves follow at twice the distance |
| Elves.WinnerAfterTurns | day19/src/main.rs:20-32 | playing turns does not change who wins |
| Elves.AcrossWinnerOf | day19/src/main.rs:53-71 | part 2 is the elf left with every present when each elf in turn takes from the elf across the circle; no elves panics at `elves[0]` |
| Elves.Steal | day19/src/main.rs:56-63 | one pass removes exactly one elf, keeps the vector increasing within 1 to n and `turn_index` in range, and plays one turn of the game |
| Elves.StealStep | day19/src/main.rs:56-63 | the index removed is the elf across from the thief, and the new `turn_index` is the place of the next elf |
| Elves.AheadAt | day19/src/main.rs:56-63 | the same when the elf across comes after the thief in the vector |
| Elves.BehindAt | day19/src/main.rs:56-63 | the same when it comes before the thief, which shifts the thief down one place |
| Elves.StealAhead | day19/src/main.rs:56-63 | when the elf across comes later, `turn_index + 1` (wrapped) is the next elf |
| Elves.StealBehind | day19/src/main.rs:56-63 | when the elf across comes earlier, `turn_index` (wrapped) is the next elf |
| Elves.BehindTaken | day19/src/main.rs:56-57 | removing the elf across from the thief leaves the circle from the next elf round to the thief |
| Elves.BehindNext | day19/src/main.rs:59-63 | an unchanged `turn_index`, wrapped, points at the elf after the thief |
| Elves.RemoveKeeps | day19/src/main.rs:57 | removing one elf keeps the others in increasing order within 1 to n |
| Elves.ExampleFive | day19/src/main.rs:13-71 | of five elves, elf 3 wins part 1 and elf 2 wins part 2, as in the puzzle |
| OneTimePad.Count | day14/src/main.rs:79-90 | `last_char_count` after k characters is between 1 and k |
| OneTimePad.Dedup | day14/src/main.rs:94 | `dedup` keeps exactly the characters of its input, and a sorted input comes out strictly ascending |
| OneTimePad.GetRepeats | day14/src/main.rs:73-97 | the loop yields the first-triple character and the sorted, deduplicated quintuples of the digest |
| OneTimePad.CountMeaning | day14/src/main.rs:79-90 | the counter is at least n exactly when the n characters ending there are equal |
| OneTimePad.CountPassesThrough | day14/src/main.rs:79-80 | a run that reaches n passed through a position where the count was exactly n |
| OneTimePad.TripleUpToMeaning | day14/src/main.rs:81-83 | `triple` stays None while no count has reached 3, and then holds the character of the first position that did |
| OneTimePad.TripleMeaning | day14/src/main.rs:79-83 | `triple` is Some exactly when the digest has three equal characters in a row, and then holds the character of the first such run |
| OneTimePad.FivesUpToMeaning | day14/src/main.rs:84-86 | a character is pushed exactly when one of its runs reaches a count of 5 |
| OneTimePad.FivesMeaning | day14/src/main.rs:84-86 | the unsorted `quintuples` holds exactly the characters that have five equal in a row |
| OneTimePad.QuintuplesMeaning | day14/src/main.rs:84-95 | the returned `quintuples` holds exactly the characters with five in a row, strictly ascending and so once each |
| OneTimePad.FiveHasTriple | day14/src/main.rs:81-86 | a digest with a quintuple always has a triple |
| OneTimePad.CountWithinRun | day14/src/main.rs:79-80 | inside one run the counter rises by one per character |
| OneTimePad.RunReportedOnce | day14/src/main.rs:84 | no two positions of one run both have the count 5, so a run longer than five is pushed once |
| OneTimePad.KeysBelow | day14/src/main.rs:55-56 | the keys below n in ascending order, as a reference for the 64th key |
| OneTimePad.AddKey | day14/src/main.rs:54 | inserting an index keeps the key set ascending and adds exactly that index |
| OneTimePad.FindKey | day14/src/main.rs:23-70 | an index the search stops at is a key with exactly 63 keys below it, so it is the 64th key |
| OneTimePad.Prune | day14/src/main.rs:41-47 | popping removes from the front exactly the triples whose index is below i - 1000, and the rest are exactly the triples from i - 1000 to i - 1, in increasing order of index |
| OneTimePad.Scan | day14/src/main.rs:49-62 | after index i the key set is exactly the indices the digests up to i confirm, unless the search stopped at the 64th key |
| OneTimePad.ScanTriples | day14/src/main.rs:50-61 | each stored triple of the quintuple's character becomes a key, only confirmed keys are inserted, and a stop reports the 64th key |
| OneTimePad.Sixty4th | day14/src/main.rs:55-58 | when the set holds only keys and every key confirmed before i, an entry at place 63 below i - 1000 is the 64th key |
| OneTimePad.EarlyKeyConfirmed | day14/src/main.rs:42 | a key more than 1000 indices behind i is confirmed by the digests before i |
| OneTimePad.PrefixBelow | day14/src/main.rs:56 | the entries of an ascending list below its 64th entry are its first 63 |
| OneTimePad.ScanComplete | day14/src/main.rs:49-62 | once every quintuple is processed every index confirmed by digest i is a key in the set |
| OneTimePad.IncreasingSame | day14/src/main.rs:56 | two ascending lists with the same elements are equal, so the 63 keys below are unique |
| OneTimePad.ExampleKey | day14/src/main.rs:39-66 | a digest with `888` followed by one with `88888` makes the first a key |
| Bots.U32At | day10/src/main.rs:148 | a token is read as a `u32`, and a missing or malformed one panics |
| Bots.DestAt | day10/src/main.rs:150-159 | a destination is accepted only for the words `bot` and `output`, numbered by the next token; any other word panics with "Unexpected destination" |
| Bots.ParseBot | day10/src/main.rs:144-161 | `to_bot` reads the number from token 1, the low destination from tokens 5-6 and the high one from tokens 10-11, and starts with both slots empty |
| Bots.Filter | day10/src/main.rs:43 | `filter(starts_with)` keeps exactly the lines with the prefix |
| Bots.ParseBots | day10/src/main.rs:41-46 | every `bot` line parses or the program panics; the bots come out sorted by number, one per line |
| Bots.ParseBotsMembers | day10/src/main.rs:41-46 | the sorted bots are exactly the bots the `bot` lines describe |
| Bots.Give | day10/src/main.rs:57-65 | a chip fills slot 0 when it is empty and otherwise slot 1, adding just that chip; with both slots full there is no room |
| Bots.FindBot | day10/src/main.rs:53-56 | `find` yields the first bot with the number, or None when no bot has it |
| Bots.Deliver | day10/src/main.rs:88-98 | the first bot with the number gains the chip and no other bot changes; a missing bot or a full one panics |
| Bots.ValueLine | day10/src/main.rs:51-65 | a `value` line gives chip token 1 to the bot numbered by token 5, changing no other bot; with no bots at all the search panics before reading a token |
| Bots.AssignAll | day10/src/main.rs:48-66 | the `value` lines in order keep the number of bots |
| Bots.AssignValues | day10/src/main.rs:48-66 | the `for_each` applies every `value` line in order, or stops at the first panic |
| Bots.FilterStep | day10/src/main.rs:50 | filtering from line k keeps line k exactly when it has the prefix |
| Bots.AssignStep | day10/src/main.rs:51-65 | applying a line and then the rest is the fold over both |
| Bots.MinMax | day10/src/main.rs:78-79 | low is at most high and the two are the bot's two chips |
| Bots.Send | day10/src/main.rs:88-109 | a chip for a bot is delivered; one for bins 0-2 is binned and stops the processing exactly when it is the third and the `u64` product does not overflow; any other bin drops it |
| Bots.Visit | day10/src/main.rs:73-135 | a bot without two chips is skipped unchanged; one that fires keeps the number of bots, prints its number exactly when its chips are 17 and 61, and when the processing goes on it has sent the min chip to its low destination, then the max chip to its high destination, and ends with both slots empty |
| Bots.VisitRoutes | day10/src/main.rs:78-131 | a firing bot's min chip goes to its low destination and its max chip to its high one: the bots become the two deliveries in that order with the firing bot emptied, and the binned chips grow by what reached bins 0 to 2 |
| Bots.SendChip | day10/src/main.rs:88-131 | the `match` on a destination updates `bots`, `part2` and `part2_count` as the model's step does |
| Bots.Fire | day10/src/main.rs:73-135 | one iteration of the `while` loop agrees with the model's visit of bot i |
| Bots.Pass | day10/src/main.rs:71-138 | one pass of the `while` loop agrees with the model's round over all bots |
| Bots.ProcessBots | day10/src/main.rs:68-139 | the `'processing` loop, with `part2` kept as the product of the binned chips, prints what the model runs to |
| Bots.Solve | day10/src/main.rs:31-141 | parsing, the `value` lines and the processing together give the model's outcome |
| Bots.ProductPush | day10/src/main.rs:101 | `part2 *= low` keeps `part2` the product of the binned chips |
| Bots.SendBinned | day10/src/main.rs:99-108 | sending only appends to the binned chips and stops exactly at the third |
| Bots.VisitBinned | day10/src/main.rs:81-131 | with fewer than three binned chips a visit stops only by binning the third, so the `part2_count == 3` check at the 17-61 comparison never stops the loop |
| Bots.RoundBinned | day10/src/main.rs:71-138 | the same for a whole pass |
| Bots.RunBinned | day10/src/main.rs:70-139 | the same for the whole processing from no binned chips |
| Bots.StopsAfterThree | day10/src/main.rs:99-141 | when the processing stops, exactly three chips reached bins 0-2 and `part2` is their product |
| Bots.ExampleSample | day10/src/main.rs:68-141 | on the puzzle's sample, outputs 0, 1 and 2 receive 5, 2 and 3, so the product is 30 and no bot compares 17 with 61 |
| Keypad.Press | day02/src/main.rs:27-33 | a move is defined exactly for U, D, L and R; on the pad it keeps the finger on the pad and changes at most one coordinate, by at most one |
| Keypad.Walk | day02/src/main.rs:26-34 | the inner loop over a line's letters ends on the button the line's walk reaches, or stops at the first unknown letter |
| Keypad.Solve | day02/src/main.rs:24-37 | starting at (1, 1), the digits printed line by line and the panic of the first line with an unknown letter are those of the walk over all lines |
| Keypad.WalkStaysOnPad | day02/src/main.rs:28-31 | a whole line never takes the finger off the 3 by 3 pad |
| Keypad.WalkDefined | day02/src/main.rs:32 | a line walks to its end exactly when every letter is a direction, otherwise it panics |
| Keypad.DigitIsLabel | day02/src/main.rs:36 | the printed number is the label of the button on the pad 1 2 3 / 4 5 6 / 7 8 9, between 1 and 9, and different buttons print different digits |
| Keypad.CodeMeaning | day02/src/main.rs:25-37 | one digit per line, all lines printed exactly when none panics, and every digit between 1 and 9 |
| Keypad.CodeCarriesOver | day02/src/main.rs:24-37 | the digit of line n is that of the button the walk over the first n lines ends on, so each line starts where the last ended |
| Keypad.ExampleSample | day02/src/main.rs:24-37 | the puzzle's sample lines ULL, RRDDD, LURDL, UUUUD print 1985 |
| Taxicab.Turn | day01/src/main.rs:22-26 | R and L turn a quarter, keeping the facing along an axis and never leaving it or reversing it; any other letter panics |
| Taxicab.TaxicabI32 | day01/src/main.rs:53 | the `i32` taxicab distance is defined exactly when neither coordinate is `i32::MIN` and the sum fits, and is then the sum of the absolute values |
| Taxicab.Walk | day01/src/main.rs:29-46 | the inner loop over one instruction's blocks gives what walking that many blocks in a row gives, or its first overflow panic |
| Taxicab.Solve | day01/src/main.rs:14-53 | the fold over the trimmed, comma-split instructions from facing north at the origin, then the part 1 distance, agree with the walk and its panics |
| Taxicab.TurnsRestore | day01/src/main.rs:22-24 | R then L and L then R give the facing back, four R turns give it back, and L is three R turns |
| Taxicab.CellsAt | day01/src/main.rs:33-35 | the block k + 1 steps ahead is the position plus k + 1 times the facing |
| Taxicab.MarchMoves | day01/src/main.rs:27-46 | an instruction of N blocks keeps the facing, appends exactly the N blocks walked over to `visited`, ends on the last of them, and keeps a revisit found earlier |
| Taxicab.MarchDistance | day01/src/main.rs:33-35 | walking N blocks moves the position by N times the facing |
| Taxicab.StepTrail | day01/src/main.rs:33-46 | one block keeps the trail connected: each remembered block next to the previous one and the last one under the walker |
| Taxicab.TravelTrail | day01/src/main.rs:18-50 | the whole fold keeps the facing along an axis and the remembered blocks a connected trail from the origin ending where the walker stands |
| Taxicab.PushFirstRepeat | day01/src/main.rs:36-45 | remembering a block keeps `revisited` the first block of `visited` seen before, and None exactly while every block is new |
| Taxicab.StepFirstRepeat | day01/src/main.rs:33-46 | one block keeps `revisited` the first repeat of `visited` |
| Taxicab.MarchFirstRepeat | day01/src/main.rs:33-46 | a whole instruction keeps `revisited` the first repeat of `visited` |
| Taxicab.TravelFirstRepeat | day01/src/main.rs:18-50 | the whole fold keeps `revisited` the first repeat of `visited`, and once set it never changes |
| Taxicab.AnswerMeaning | day01/src/main.rs:14-53 | Part 1 is the taxicab distance of the end of a connected trail from the origin, and Part 2 is printed exactly when a block is reached twice, naming the first such block |
| Taxicab.ExampleSample | day01/src/main.rs:14-53 | the puzzle's sample `R2, L3` ends 5 blocks away without a revisit |
| Triangles.SideOf | day03/src/main.rs:28 | a number reads exactly when it parses as an `i32`, and is then that `i32`; otherwise the unwrap panics |
| Triangles.SortSides | day03/src/main.rs:32-33 | the sorted sides are in ascending order and are the same multiset of sides |
| Triangles.SumPermutation | day03/src/main.rs:32-33 | reordering the sides does not change their total |
| Triangles.SortedTriple | day03/src/main.rs:32-34 | after sorting three sides the last is the largest and the first two add up to the total less the largest |
| Triangles.TriangleTest | day03/src/main.rs:31-35 | for three sides that do not overflow, the two smallest beating the largest is exactly the triangle inequality in all three directions |
| Triangles.TriangleDefined | day03/src/main.rs:31-35 | the test decides exactly when there are at least three sides and the two smallest add up inside `i32`; fewer sides panic at an index, an overflow at the addition |
| Triangles.TriangleOrderFree | day03/src/main.rs:31-35 | the order the sides are listed in does not change the test's outcome |
| Triangles.CountCheckedFrom | day03/src/main.rs:24-36 | a count of lines that gets to the end is the number of lines whose check says true |
| Triangles.CountCheckedTotal | day03/src/main.rs:24-36 | a count that gets to the end has checked every line without a panic |
| Triangles.CountRowsTotal | day03/src/main.rs:24-36 | Part 1 prints only when every line parses and its test does not panic |
| Triangles.CountRowsMeaning | day03/src/main.rs:24-36 | Part 1 is the number of lines whose numbers form a passing triangle |
| Triangles.ColumnAt | day03/src/main.rs:51-54 | value k of column i is value i + 3k of the flattened list |
| Triangles.ColumnLength | day03/src/main.rs:51-54 | column i holds every third value from i on, a third of the rest rounded up |
| Triangles.FoldFull | day03/src/main.rs:55-61 | folding onto no group or a full last group appends the runs of three of the rest |
| Triangles.FoldOpen | day03/src/main.rs:55-61 | folding onto an open last group keeps filling it before starting new groups |
| Triangles.FoldIsChunks | day03/src/main.rs:55-61 | the fold from no groups builds the column's runs of three, in order |
| Triangles.ChunksMeaning | day03/src/main.rs:55-61 | those runs read in order give the column back, each holds one to three values and only the last may be short |
| Triangles.AddColumns | day03/src/main.rs:49-69 | the `for i in 0..3` loop adds the three column counts, stopping at the first panic |
| Triangles.Part2 | day03/src/main.rs:49-69 | the loop with the triangle test gives the Part 2 total or its panic |
| Triangles.Part2Sum | day03/src/main.rs:49-69 | Part 2 prints exactly when no column panics, and then the sum of the three column counts |
| Triangles.Solve | day03/src/main.rs:14-72 | the program gives Part 1, then the flattened values' Part 2 or its panic |
| Signals.Column | day06/src/main.rs:30 | column i holds, for each line in order, its character at position i |
| Signals.TallyPush | day06/src/main.rs:29-30 | counting one more character bumps that character's entry, or starts it at 1, and leaves the others alone |
| Signals.CountColumn | day06/src/main.rs:29-30 | `counts_by` panics exactly when some line has no character at column i, and otherwise maps each character of the column to how often it occurs there |
| Signals.MaxByKey | day06/src/main.rs:31 | `max_by_key` on a non-empty map gives one of its keys whose count no other key exceeds |
| Signals.MinByKey | day06/src/main.rs:32 | `min_by_key` on a non-empty map gives one of its keys whose count no other key goes below |
| Signals.TallyChoice | day06/src/main.rs:29-32 | a key of largest count in the tally is exactly a most common character of the column, and a key of smallest count exactly a least common character among those that occur |
| Signals.Solve | day06/src/main.rs:26-36 | no lines panic at `lines[0]`; otherwise the program answers exactly when every line is as long as the first, with one character per column in each part, Part 1's the most common and Part 2's the least common of that column |
| Maze.PopCountBit | day13/src/main.rs:110 | appending a binary digit adds that digit to the count of 1 bits |
| Maze.ExampleCorner | day13/src/main.rs:103-111 | with favourite number 10 the top left corner is open, the cell right of it a wall, and the two below open, as in the puzzle's sample maze |
| Maze.CompareFlip | day13/src/main.rs:21-47 | swapping the two states flips the order |
| Maze.CompareEqual | day13/src/main.rs:21-41 | two states tie exactly when priority, steps and position all agree, and with the same target they are the same state |
| Maze.ComparePriority | day13/src/main.rs:23-38 | steps plus the taxicab distance to the target decide first, and between equal priorities fewer steps come first |
| Maze.CompareTransitive | day13/src/main.rs:21-47 | the order is transitive, strictly so when either step is strict |
| Maze.Earliest | day13/src/main.rs:62 | the state popped from the reversed heap comes no later than any other state in it |
| Maze.Neighbours | day13/src/main.rs:74-99 | at most four states are pushed, each one step more, same target, one cell away along one axis and not a wall, and every open cell one step away is pushed, so left and up only when the coordinate is above 0 |
| Maze.NeighbourPriority | day13/src/main.rs:74-99 | a pushed state's priority is the popped state's or two more, so the priority never drops |
| Maze.Search.Step | day13/src/main.rs:61-99 | one pass pops an earliest state; a position already seen is dropped without being expanded; otherwise the position is remembered, Part 1 is reported at the target, and exactly its neighbours are pushed |
| Grid.Terabytes | day22/src/main.rs:42-43 | a size column reads exactly when, less its trailing `T`s, it parses as a `u32`, and is then that value |
| Grid.Nodes | day22/src/main.rs:58-62 | the first two lines are skipped and every later line k gives node k - 2 |
| Grid.ReadDfLine | day22/src/main.rs:24-45 | reading a `df` line for the node at (x, y) gives back that position, the name in the first column, and the size and used space |
| Grid.DfTokens | day22/src/main.rs:26 | a `df` line splits into its five columns |
| Grid.ReadName | day22/src/main.rs:28-37 | the name `/dev/grid/node-xN-yM` gives the position (N, M) |
| Grid.NameParts | day22/src/main.rs:28-37 | the first `-` ends `/dev/grid/node`, the next separates `xN` from `yM`, and each number reads back once its letter is trimmed |
| Grid.ReadColumns | day22/src/main.rs:39-44 | columns that start with a node's name, size and used space read as that node |
| Grid.RowEmpty | day22/src/main.rs:67-69 | a node that holds no data is the first node of no viable pair, which is the outer loop's `continue` |
| Grid.CountViable | day22/src/main.rs:64-82 | the nested loops count, for every node with data, each other node whose free space takes all of that data |
| Grid.RowPairsCount | day22/src/main.rs:71-81 | the inner loop's count is the number of partners viable with node i |
| Grid.PairsCount | day22/src/main.rs:64-82 | the count is the number of ordered pairs (A, B) with A not B, A's used space above 0 and A's plus B's used space within B's size |
| Grid.RowBound | day22/src/main.rs:71-81 | node i counts at most one partner per other node |
| Grid.PairsBound | day22/src/main.rs:64-82 | the nodes before i count at most i times n - 1 pairs |
| Grid.Part1 | day22/src/main.rs:64-84 | Part 1 is the number of viable ordered pairs, at most n(n - 1) |
| Grid.Solve | day22/src/main.rs:58-84 | the program panics exactly when a node line after the header is malformed, and otherwise prints the number of viable pairs |
| Ducts.OpenMap | day24/src/main.rs:28-32 | a cell of the map is open exactly when its character is not `#`, and the map has the shape of the lines |
| Ducts.LabelOf | day24/src/main.rs:40 | a marked character gives its digit's value when it is a decimal digit, and panics at `unwrap` otherwise |
| Ducts.RowPointsMeaning | day24/src/main.rs:37-41 | a row's points are found exactly when every marked cell in it is a digit, and are then exactly those cells with their digits |
| Ducts.GridPointsMeaning | day24/src/main.rs:33-43 | flattening the rows' points succeeds exactly when every marked cell of the map is a digit, and lists exactly the digit cells |
| Ducts.RequiredPoints | day24/src/main.rs:33-45 | the required points are exactly the digit cells of the map, sorted by digit, and reading them panics exactly when some other marked character occurs |
| Ducts.Neighbours | day24/src/main.rs:111-122 | the cells pushed from a cell are exactly the open cells one step up, down, left or right inside the map's bounds |
| Ducts.ClosedWalk | day24/src/main.rs:99-123 | a walk that starts in a set of cells closed under steps ends in that set |
| Ducts.SearchStart | day24/src/main.rs:95-97 | the queue holding only the start with 0 steps and nothing seen satisfies the search invariant |
| Ducts.SearchSkip | day24/src/main.rs:100-103 | dropping a popped cell that was already seen keeps the search invariant |
| Ducts.SearchExpand | day24/src/main.rs:105-122 | marking a popped new cell seen and queueing its neighbours one step further keeps the invariant and leaves fewer unseen cells |
| Ducts.SearchFound | day24/src/main.rs:107-109 | when the target is popped its step count is the length of a walk from the start to it |
| Ducts.SearchExhausted | day24/src/main.rs:99-125 | when the queue runs dry the target cannot be reached at all, so the 0 returned meets the distance contract |
| Ducts.Distance | day24/src/main.rs:89-126 | the distance is 0 from a point to itself, otherwise the length of an actual walk to the target, or 0 only when no walk reaches it |
| Ducts.FillPair | day24/src/main.rs:54-56 | inserting a measured distance under both (i, j) and (j, i) extends the table's invariant by one pair |
| Ducts.FillRow | day24/src/main.rs:51-52 | finishing the inner loop for row i leaves the table holding every pair that involves a point up to i |
| Ducts.EdgeTable | day24/src/main.rs:49-62 | the table holds exactly the ordered pairs of distinct points, the same distance both ways, each the search's distance between the two points |
| Ducts.TourCost | day24/src/main.rs:68-73 | the loop adds up the table entries along 0 then the ordering, panicking at the first missing entry |
| Ducts.TourFromTotal | day24/src/main.rs:70-73 | on a table holding every pair of distinct points, a tour that never steps from a point to itself never panics |
| Ducts.TourTotal | day24/src/main.rs:68-73 | on a table holding every pair of distinct points, no ordering of points 1 to n - 1 panics |
| Ducts.PrefixedMember | day24/src/main.rs:65-66 | the orders that start with v and go on with a listed order are exactly those put in front by v |
| Ducts.OrderingsCons | day24/src/main.rs:65-66 | an order is listed exactly when it starts with a pool element and goes on with a listed order of the remaining pool |
| Ducts.ArrangementCons | day24/src/main.rs:65-66 | an order starting with a pool element arranges the pool exactly when its tail arranges the rest of the pool |
| Ducts.OrderingsSound | day24/src/main.rs:65-66 | every order `permutations` lists uses every pool element exactly once |
| Ducts.OrderingsComplete | day24/src/main.rs:65-66 | every order of the pool's elements, each used once, is listed |
| Ducts.OrderingsNonEmpty | day24/src/main.rs:65-66 | at least one order is listed, even for an empty pool, so `min().unwrap()` never sees an empty iterator |
| Ducts.Range | day24/src/main.rs:65 | `1..n` holds exactly the numbers from 1 to n - 1 |
| Ducts.Cheapest | day24/src/main.rs:67-84 | over a list of orderings the result is the first tour that panics, or the cost of a listed tour that no listed tour undercuts |
| Ducts.ListedMinimum | day24/src/main.rs:65-84 | the cheapest listed tour is the cheapest tour over every ordering of points 1 to n - 1 |
| Ducts.ListedOrdering | day24/src/main.rs:65-66 | every listed order visits each of the points 1 to n - 1 exactly once |
| Ducts.Shortest | day24/src/main.rs:64-84 | with no points `n - 1` underflows; otherwise the result is the cost of some ordering that no ordering undercuts, and a panic comes only from an ordering whose tour panics |
| Ducts.Solve | day24/src/main.rs:18-87 | the program panics exactly when some marked character is not a digit or there are no points, and otherwise prints the cheapest tour from point 0 over a table of search distances |
| Facility.ToFloor | day11/src/main.rs:362-393 | the result is the `to_floor` reading of the line: a line without words underflows `len() - 1`, and otherwise the words from the sixth on are read as items |
| Facility.ReadComponents | day11/src/main.rs:366-392 | the `while` loop over the words ends in the result the item reading gives from index 5 on an empty floor: the floor read, an index panic or `Unexpected string` |
| Facility.KindRead | day11/src/main.rs:373-377 | `generator` or `microchip` followed by nothing, a comma or a full stop is classified as that kind of item |
| Facility.ItemRead | day11/src/main.rs:373-382 | an item's words as the puzzle writes them are read back as that item: `X-compatible microchip` gives microchip X and `X generator` gives generator X |
| Facility.ReadStep | day11/src/main.rs:368-386 | one pass of the loop skips an `a`, reads the item whose kind word follows its name, and moves on three words |
| Facility.ReadListing | day11/src/main.rs:368-387 | a listing of items written as the puzzle writes them, with `a`, `and a` and the punctuation, is read into exactly those items |
| Facility.DescribeRead | day11/src/main.rs:362-393 | a floor line `The ... floor contains` followed by its listing or by `nothing relevant.` is read back into its generators and microchips, each in the order listed |
| Facility.AnyUnpaired | day11/src/main.rs:127-130 | the `any` is true exactly when some microchip's element has no generator on the floor |
| Facility.FriedMeaning | day11/src/main.rs:125-135 | a floor makes the state invalid exactly when it holds a generator and some microchip lacks its own generator |
| Facility.AnyOccupied | day11/src/main.rs:137-141 | the `any` is true exactly when some listed floor holds a microchip or a generator |
| Facility.AtGoalMeaning | day11/src/main.rs:137-141 | the goal test holds exactly when the first three floors, those there are, are empty |
| Facility.KeyMatchesSame | day11/src/main.rs:51-62 | two states are equal exactly when their hash inputs, the floors and the elevator floor, are equal, so `steps` is ignored by both |
| Facility.StepsToFinish | day11/src/main.rs:33-48 | the loop computes the estimate of the floors below the top, and panics on a state without floors |
| Facility.RemainingBounds | day11/src/main.rs:36-45 | the estimate from a floor on is at least the steps so far, and equal to them exactly when nothing is carried and those floors below the top are empty |
| Facility.EstimateMeaning | day11/src/main.rs:33-48 | `steps_to_finish` never panics with floors and is at least `steps`; it equals `steps` exactly when every floor below the top is empty, which with four floors is the goal test |
| Facility.NameLeTotal | day11/src/main.rs:167 | the order `sort` uses on names is total |
| Facility.NameLeTransitive | day11/src/main.rs:167 | the order `sort` uses on names is transitive |
| Facility.NameLeAntisymmetric | day11/src/main.rs:167 | names ordered both ways are equal |
| Facility.NameOrder | day11/src/main.rs:167 | the order on names is a total preorder |
| Facility.InsertNameIsInsert | day11/src/main.rs:167 | inserting a name into a sorted list puts it where the stable sort's insertion does |
| Facility.SortNamesMeaning | day11/src/main.rs:167 | `sort` on a list of names is the stable sort by that order: a sorted permutation of the list |
| Facility.RemoveMeaning | day11/src/main.rs:159 | `remove(i)` takes out exactly the item at i and shifts the later ones down, keeping the order |
| Facility.FilterMeaning | day11/src/main.rs:193-199 | the filter drops every microchip equal to the generator and keeps every other one |
| Facility.FilterOnce | day11/src/main.rs:193-199 | on a floor with one such microchip the filter takes out exactly that one |
| Facility.RemoveTwice | day11/src/main.rs:240-242 | removing a first item and then a second from what is left takes out exactly those two |
| Facility.Apply | day11/src/main.rs:156-358 | a pushed state has one more step, the elevator at the destination one floor up or down within the building, the same number of floors, and every other floor unchanged |
| Facility.LoadedGains | day11/src/main.rs:203-211 | the destination gains exactly the pushed generators and microchips |
| Facility.UnloadedLoses | day11/src/main.rs:156-199 | the elevator's floor loses exactly the one or two items carried; carrying a generator with its microchip drops every microchip of that element |
| Facility.ApplyCarries | day11/src/main.rs:156-358 | every move carries one or two items from the elevator's floor to the destination: the destination gains them and the elevator's floor loses them |
| Facility.ExchangeCounts | day11/src/main.rs:156-358 | what the elevator's floor loses of an element, the destination gains |
| Facility.CopiesUpdate | day11/src/main.rs:158 | replacing one floor's items replaces them in the building's count |
| Facility.ApplyConserves | day11/src/main.rs:156-358 | a move keeps how many generators and microchips of each element the building holds, when the microchip carried with its generator is the only one of its element on the floor |
| Facility.Destinations | day11/src/main.rs:162-189 | the destinations are exactly the floor above, when there is one, and the floor below, when there is one |
| Facility.Paired | day11/src/main.rs:191 | for each generator, whether its microchip is on the elevator's floor |
| Facility.TripsMeaning | day11/src/main.rs:161-189 | a load's trips are exactly that load to each destination |
| Facility.SecondGeneratorsMeaning | day11/src/main.rs:240-279 | the inner loop offers generator g with each later generator, to each destination |
| Facility.SecondChipsMeaning | day11/src/main.rs:318-357 | the inner loop offers microchip m with each later microchip, to each destination |
| Facility.GeneratorMovesMeaning | day11/src/main.rs:156-280 | the generator loop offers exactly each generator alone, with its microchip when that is on the floor, and with each later generator, to each destination |
| Facility.ChipMovesMeaning | day11/src/main.rs:283-358 | the microchip loop offers exactly each microchip alone and with each later microchip, to each destination |
| Facility.MovesMeaning | day11/src/main.rs:155-358 | the moves the search tries are exactly the loads of one or two items on the elevator's floor, to a floor one up or one down |
| Facility.PushesConcat | day11/src/main.rs:155-358 | the states pushed for two runs of moves, one after the other, are those for the joined run |
| Facility.PushFollows | day11/src/main.rs:155-358 | pushing the state of each legal move is pushing what the move leads to |
| Facility.Trip | day11/src/main.rs:161-189 | the two `if` blocks push the state for the load carried up, when there is a floor above, then for it carried down, when there is one below |
| Facility.SecondGeneratorSuccessors | day11/src/main.rs:240-279 | the `second_g` loop pushes, in order, the states for generator g carried with each later generator |
| Facility.GeneratorSuccessors | day11/src/main.rs:156-280 | the `g` loop pushes, in order, the states for every move that carries a generator |
| Facility.SecondChipSuccessors | day11/src/main.rs:318-357 | the `second_m` loop pushes, in order, the states for microchip m carried with each later microchip |
| Facility.ChipSuccessors | day11/src/main.rs:283-358 | the `m` loop pushes, in order, the states for every move that carries only microchips |
| Facility.Successors | day11/src/main.rs:155-358 | the states pushed are, in order, those of each move the search tries, each a legal move of one or two items |
| Facility.Start | day11/src/main.rs:99-108 | the start exists exactly when every line reads as a floor; it has the floors in line order, no steps, and the elevator on the first floor |
| Facility.Visit | day11/src/main.rs:111-358 | a popped state is recorded in the seen set; it is skipped when already seen, dropped when a floor fries a microchip, ends the search with its steps at the goal, and otherwise pushes the successors of every move |

## Left out

- File reading, argument parsing, progress bars and printing: the input
  lines and flags are parameters.
- Integer overflow: registers and counters are unbounded integers. The i32
  range is kept only where a token is parsed.
- Non-termination of the interpreters: every run takes a `fuel` bound.
- ClockSignal.Sweep: bounded to a number of seeds, because the program's own
  sweep never stops.
- Decompression: `length += count * size` and the index update are unbounded
  here; a `usize` overflow is not modelled.
- Rooms: characters are Unicode scalar values; the byte length and
  `chars().nth` of the checksum agree with it only on ASCII text, which is
  what room lines hold.
- Rooms.SectorSum: the `u32` sum is unbounded here; Rooms.SectorSumBound states how large it can get, but a sum above `u32::MAX`, where the program would panic, is not modelled.
- Display.Screen.Rect: a panicking `rect` stops before it changes the board, where the program first lights the pixels it reaches; the board then is never seen.
- Display: the closing loop that prints the board is left out.
- Firewall.PartTwoCounts: stated for input whose ranges all have start at most end; a range written end first that no other range absorbs makes the program's total count wrong or overflow, and the model computes the same value or panic.
- Discs.Solve: the loop runs at most `fuel` jumps and answers nothing after them, because the program's loop never ends when no time lines up; usize overflow of t is not modelled.
- Elves: the `--debug` printing and the progress bar are left out.
- OneTimePad: MD5 and the 2016-fold key stretching are left out; the digests are an input, so `--salt` and `--part2` only choose which digests are given.
- OneTimePad.FindKey: the input is a finite list of digests, so the endless `'hashing` loop returns None when they run out; only the direction "a reported index is the 64th key" is proved, not that the search stops once it could.
- OneTimePad: `i` is an `i32` in the program; the model's index is unbounded, which is the same for fewer than 2^31 digests.
- OneTimePad: the `HashSet` of keys is modelled as a list kept in ascending order, the order `iter().sorted()` presents it in.
- Bots.ProcessBots: the endless `'processing` loop is given a number of passes; running out of them yields None.
- Bots: reading the data file and the `--debug` printing are left out; the "Part 1" lines become the list of bot numbers the model returns.
- Bots.ParseBots: the model's insertion sort keeps bots with equal numbers in input order, as `sort_by_key` does, but no contract states that.
- Keypad: reading the data file and the command-line arguments are left out; the lines are a parameter and what `print!` writes is returned.
- Taxicab: reading the data file is left out; the file's text is a parameter. The input is taken as characters, so the panic of `direction[0..1]` on a multi-byte first character is not modelled.
- Taxicab.Answer: returns the Part 2 line as a value instead of printing it while walking, so a panic later in the walk drops a Part 2 line the program has already printed.
- Triangles: reading the data file is left out; the lines are a parameter.
- Triangles.SortSides: states the sorted order and the multiset of the sides, not the particular sort routine `sort` uses, which gives the same result.
- Triangles.TriangleTest: with more than three numbers on a line the test compares the two smallest against the third smallest, not the largest; the model keeps that behaviour and states the triangle meaning only for three sides.
- Signals: reading the data file is left out. Lines are taken as characters, so a line's byte length `len()` and its character count are not told apart.
- Signals.MaxByKey: which of several tied characters is printed depends on the hash map's iteration order, so the model picks any one of them and states only that its count is largest; the same goes for Signals.MinByKey.
- Maze: the `while` loop around Maze.Search.Step is left out: it has no exit after printing Part 1, so it runs until the heap is empty and is not a terminating computation to model. The favourite number is a parameter instead of a command-line argument.
- Maze.IsWall: uses unbounded integers, so the `u32` overflow of the formula far from the origin is not modelled, and neither is the `u32` overflow of the steps.
- Maze.Search.Step: the heap is modelled by its contents; a binary heap's sift order is replaced by a scan for an earliest state, which finds the same state up to states that tie in the order.
- Grid: reading the data file is left out; the lines are a parameter. Part 2, which prints the grid for reading by eye and picks the goal with `max_by_key`, is display only and is not modelled.
- Grid.CountViable: the sizes are unbounded integers, so a `u32` overflow of `node_b.used + node_a.used` is not modelled.
- Grid.ReadDfLine: states the round trip for nodes at non-negative positions, which are the only ones `df` lists.
- Ducts: reading the data file and the `--debug` printing are left out; the lines are a parameter.
- Ducts.Solve: requires every line to be as long as the first; on a ragged map `distance_between` can index past a short row, which is not modelled.
- Ducts.Distance: states that the result is the length of a walk, or 0 when there is none; that the walk is a shortest one, which breadth-first order gives, is not proved.
- Ducts.Orderings: models `Itertools::permutations` by what it yields, every order of the elements once; the order in which it yields them is not modelled, so which panicking tour comes first is not fixed. No tour panics on the table the program builds.
- Ducts.TourCost: the costs are unbounded integers, so a `usize` overflow of `cost` is not modelled.
- Facility: the `BinaryHeap` and its `partial_cmp` order (day11/src/main.rs:64-87) and the `while` loop that pops states are left out; Facility.Visit models one pass for a popped state, and Facility.StepsToFinish the estimate the order compares first. File reading, `--debug` printing and the progress bar are left out too.
- Facility: steps are unbounded, so a `u32` overflow of `steps` is not modelled.
- Facility.ApplyConserves: requires the microchip carried with its generator to be the only one of its element on the floor. The filter at day11/src/main.rs:193-199 drops every copy, so with duplicate names the item count is not kept; Facility.ApplyCarries states that case exactly.
- Facility.Apply: each successor is computed as a value. The program builds it by `clone`, `remove`, `push` and `sort` on a fresh copy of the floors, so no copy is shared and there is no aliasing to model.
- Facility.Visit: requires the elevator to be on a floor of the state, which every state the search builds satisfies; the program would index out of range otherwise.

## Findings

| source | as written | input that shows it | evidently intended | confidence | as-written member | corrected member |
|---|---|---|---|---|---|---|
| day20/src/main.rs:52-60 | with more than one merged range, part 1 is the end of the first range plus one, even when that range starts above 0 | `5-8` and `10-12`: the program answers 9, yet 0 is allowed | the lowest address that no range blocks, here 0 | not executed | Firewall.AsWrittenMissesZero | Firewall.PartOneLowest |
| day20/src/main.rs:38-60 | the merge keeps a range that starts right after the previous end as a range of its own, and part 1 then answers that previous end plus one | `0-2` and `3-5`: the program answers 3, which `3-5` blocks | the lowest address that no range blocks, here 6 | not executed | Firewall.AsWrittenBlocked | Firewall.PartOneLowest |

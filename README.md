# Advent of Code 2023 solutions, modelled in Dafny

This project models the library and test code of a Rust Advent of Code 2023 repository and
proves properties of it. Puzzle input normally comes from a file; here every entry point takes
its lines (`seq<string>`) as a parameter instead.

- **The almanac, day 5.**
  - `FarmMaps` covers `src/farm_map.rs`. Rule lines `destination source length` are parsed and
    sorted by source start. `correspond` maps a point. `correspond_range` maps a range, as
    written.
  - `FarmMaps` also gives a corrected range split, `SplitRange`, whose image is proved to be
    the pointwise image of the range.
  - `Day5` covers `tests/day_5.rs`. It groups the input into stages, folds seeds (part 1) and
    seed ranges (part 2) through them, and takes a minimum.
- **Cube games, day 2.** `CubeGames` covers `src/cube_game.rs`: parsing a game line, and the
  largest amount of each colour. `Day2` covers `tests/day_2.rs`: the possibility rule and the
  sum of the numbers of possible games.
- **Scratch cards, day 4.** `ScratchCards` covers `src/scratch_card.rs`: parsing a card, and
  its wins and value. `Day4` covers `tests/day_4.rs`: the copy cascade over the
  `count_cards` array and the two totals.
- **Camel cards.** `CamelHands` covers `src/camel_hand.rs`: card values, hand types from the
  card counts, hand parsing, and the hand order used by `sort`.
- **The network.** `Networks` covers `src/network.rs`: parsing directions and nodes, building
  the node index, and the walk from `AAA` to `ZZZ`.
- **Calibration values.** `Calibration` covers `src/callibration_value.rs`: the number made of
  a line's first and last digit.
- **Gear ratios, day 3.** `Day3V2` covers `tests/day_3_v2.rs`: scanning digit runs, symbols and
  stars, neighbour cells, and the two totals. `Day3` covers the older `tests/day_3.rs`:
  splitting at delimiters and the window check.
- **Boat races, day 6.** `Day6` covers `tests/day_6.rs`: counting winning speeds and the
  product over races.

Shared modules:

- `Results` holds the `Option` and `Result` types and `Collect`, the model of
  `collect::<Result<Vec<_>, _>>()`.
- `Strings` holds the string operations the code calls: `split_once`, `split`,
  `split_whitespace`, `trim`, `replace`, `find` and `parse::<usize>()`.
- `Utils` holds `split_whitespace_and_parse_to_usize`.
- `Sorting` is the stable sort used for `sort`. It comes as a function and as an in-place
  algorithm on an array, proved equal. It is sorted and a permutation for any strict weak order.

Rust panics (`expect`, indexing out of range, `usize` subtraction below zero) are
preconditions. `usize` is `nat`, except that `parse::<usize>()` rejects a value of 2^64 or
more with `PosOverflow`, as it does where `usize` is 64 bits wide.

`correspond_range` does not compute a correct split; see "## Findings". It is modelled as
written. The properties it does have are proved about it: identity when no rule overlaps,
append-only, at most two pieces per rule. The corrected split sits beside it.

## Model

| member | source | states |
|---|---|---|
| Results.Collect | src/utils.rs:5-6 | on success every element was mapped to the value at its position; the first failing element's error is returned |
| Results.CollectOk | src/utils.rs:5-6 | when every element maps to a value, the collected result is exactly those values in order |
| Strings.ParseUsize | src/utils.rs:5 | `parse::<usize>()`: `Empty` exactly on the empty string; success exactly when the digits after an optional `+` are non-empty, all decimal and of value below 2^64, with that value; `PosOverflow` exactly when some prefix of those digits is all decimal with a value of 2^64 or more; `InvalidDigit` otherwise |
| Strings.ReadDigits | src/utils.rs:5 | the digit loop of `parse::<usize>()`: success iff every character is a digit and the value stays below 2^64; `PosOverflow` iff a prefix of digits reaches 2^64 before any other character |
| Strings.PrefixValue | src/utils.rs:5 | a prefix of a digit string is a digit string of no larger value, so the overflow of a prefix rules out success |
| Strings.ParseFormatted | src/utils.rs:5 | a number below 2^64 printed in decimal, with or without a leading `+`, parses back to itself |
| Strings.ParseFormattedOverflow | src/utils.rs:5 | a number of 2^64 or more printed in decimal, with or without a leading `+`, gives `PosOverflow` |
| Strings.ParseDigits | src/utils.rs:5 | a non-empty string of decimal digits parses to its decimal value when that is below 2^64, and gives `PosOverflow` otherwise |
| Strings.SplitOnce | src/cube_game.rs:63-65 | `split_once`: `None` exactly when the separator does not occur; otherwise the two halves joined by the separator give the input, and the first half holds no occurrence |
| Strings.SplitOnceJoined | src/cube_game.rs:63-65 | splitting `x + sep + y` gives `(x, y)` when `x` avoids the separator's first character |
| Strings.FindAfterPrefix | src/cube_game.rs:63-65 | the first occurrence of a separator in `x + sep + y` is right after `x` when `x` avoids one of its characters |
| Strings.Find | tests/day_5.rs:24 | `find`: the first position where the pattern occurs; `None` exactly when it does not occur |
| Strings.Split | src/cube_game.rs:68 | `split` on a separator always gives at least one piece |
| Strings.JoinSplit | src/cube_game.rs:68 | joining the pieces of `split` with the separator gives back the input |
| Strings.SplitJoin | src/cube_game.rs:92 | splitting a join of pieces that avoid the separator gives the pieces back |
| Strings.SplitWhitespace | src/utils.rs:4 | `split_whitespace` never yields an empty token nor one holding whitespace |
| Strings.SplitWhitespaceKeepsText | src/utils.rs:4 | the tokens concatenated are the input with its whitespace removed |
| Strings.NoTokensIffBlank | src/utils.rs:4 | there are no tokens exactly when the input is all whitespace |
| Strings.SplitWhitespaceJoin | src/utils.rs:4 | tokens joined by single spaces split back into the same tokens |
| Strings.SplitWhitespaceTrailing | src/utils.rs:4 | trailing whitespace adds no token |
| Strings.TrimKeepsTokens | tests/day_6.rs:14 | `trim` does not change the whitespace tokens |
| Strings.Remove | tests/day_6.rs:44 | `replace(c, "")`: the result holds no `c` and is no longer than the input |
| Strings.RemoveFromDigits | tests/day_6.rs:44 | deleting `c` from a text of digits and `c` leaves only digits, empty exactly when the text was all `c` |
| Strings.NatToString | src/utils.rs:5 | decimal printing: non-empty digits with the number's value and no leading zero |
| Utils.SplitWhitespaceAndParse | src/utils.rs:3-8 | on success, one number per whitespace token in order, each the token's parse; it fails exactly when some token fails to parse |
| Utils.BlankIsEmpty | src/utils.rs:4-8 | an empty or all-whitespace string gives `Ok([])` |
| Utils.BadTokenFails | src/utils.rs:5-6 | any token that does not parse makes the whole call fail |
| Utils.ReadFormattedNumbers | src/utils.rs:3-8 | numbers below 2^64 printed and separated by spaces read back to the same list |
| Utils.SingleToken | src/utils.rs:3-8 | a text that is one token succeeds iff the token parses, and then gives the one number |
| Sorting.InsertionSortPermutes | src/farm_map.rs:146 | the sort is a permutation of its input |
| Sorting.InsertionSortSorted | src/farm_map.rs:146 | under a strict weak order the sort's output is sorted |
| Sorting.InsertionSortOfSorted | src/farm_map.rs:146 | a sorted input is left as it is, so the sort is stable on equal keys already in order |
| Sorting.InsertInPlace | src/farm_map.rs:146 | on the array, inserting element `i` into the sorted prefix gives the functional insert and leaves the rest alone |
| Sorting.InsertAt | src/farm_map.rs:146 | the insert places the new element right after the last element it is not less than, when it is less than everything after that |
| Sorting.InsertionSortInPlace | src/farm_map.rs:146 | the in-place sort leaves the array equal to the functional sort of its old contents |
| Sorting.SortedPermutationsEqual | src/camel_hand.rs:176 | two sorted permutations of the same elements under an order without ties are equal |
| FarmMaps.ParseLine | src/farm_map.rs:152-159 | a rule line parses exactly when its tokenization succeeds, with the tokenizer's `ParseIntError` otherwise; the precondition is that at least three numbers are there |
| FarmMaps.ParseLineRoundTrip | src/farm_map.rs:152-159 | a line made of a rule's three numbers and any extra numbers, all below 2^64, parses back to the rule; the first three tokens are destination, source and length |
| FarmMaps.ParseRules | src/farm_map.rs:140-144 | on success one rule per line; a failure is always a `ParseIntError` |
| FarmMaps.ParseRulesPointwise | src/farm_map.rs:140-144 | on success rule `i` is the parse of line `i` |
| FarmMaps.SourceLessIsStrictWeakOrder | src/farm_map.rs:121-125 | the hand-written comparison, by source start only, is a strict weak order |
| FarmMaps.BuildSorted | src/farm_map.rs:138-149 | `try_from` succeeds exactly when every line parses, and then holds the parsed rules sorted by source start, as a permutation |
| FarmMaps.SortBySource | src/farm_map.rs:146 | `lines.sort()` on an array is the stable insertion sort by source start |
| FarmMaps.TryFrom | src/farm_map.rs:138-149 | the push loop and sort agree with the specification; on success the rules are sorted by source start, and on failure the error is `ParseIntError` |
| FarmMaps.ExampleASorted | src/farm_map.rs:168-180 | "52 50 48" is sorted before "50 98 2" |
| FarmMaps.ExampleBSorted | src/farm_map.rs:190-192 | the sort of the test's lines "0 15 37", "37 52 2", "39 0 15" puts "39 0 15" first and keeps the other two in order |
| FarmMaps.ExampleCSorted | src/farm_map.rs:203-205 | the sort of the test's lines "49 53 8", "0 11 42", "42 0 7", "57 7 4" is "42 0 7", "57 7 4", "0 11 42", "49 53 8", the rule list the lookups and the range example run on |
| FarmMaps.Correspond | src/farm_map.rs:17-41 | the cursor loop returns `Ok` of the point lookup on every path; it never fails |
| FarmMaps.LookupUnmapped | src/farm_map.rs:24-39 | a value no rule covers maps to itself |
| FarmMaps.LookupFirstCovering | src/farm_map.rs:24-36 | on sorted rules a value maps through the first rule covering it, by `v + destination - source` |
| FarmMaps.LookupCovered | src/farm_map.rs:24-36 | on sorted disjoint rules a value maps through the one rule covering it |
| FarmMaps.ExampleALookups | src/farm_map.rs:182-185 | 13→13, 14→14, 55→57, 79→81 |
| FarmMaps.ExampleBLookups | src/farm_map.rs:195-198 | 81→81, 14→53, 57→57, 13→52 |
| FarmMaps.ExampleCLookups | src/farm_map.rs:208-211 | 81→81, 53→49, 57→53, 52→41 |
| FarmMaps.RangeStep | src/farm_map.rs:59-91 | one rule's step of `correspond_range` as written: the cursor never moves back; at most two pieces; no piece exactly when the range ends before the rule or starts after it |
| FarmMaps.CorrespondRange | src/farm_map.rs:43-101 | the loop over the rules, with the cursor and the pushes, returns `Ok` of the fold of the rule steps, or `[range]` when nothing was pushed |
| FarmMaps.NoOverlapIsIdentity | src/farm_map.rs:60-70 | when no rule overlaps the range the result is exactly `[range]` |
| FarmMaps.NoOverlapPushesNothing | src/farm_map.rs:60-70 | rules that do not overlap push nothing and leave the cursor alone |
| FarmMaps.RangeFoldBound | src/farm_map.rs:58-94 | the fold only moves the cursor forward and pushes at most two pieces per rule |
| FarmMaps.CorrespondRangeSize | src/farm_map.rs:56-100 | the result has between 1 and `max(1, 2·rules)` pieces |
| FarmMaps.GapBeforeRule | src/farm_map.rs:72-76 | when the cursor is before an overlapping rule, the untranslated gap `(start, source)` is the first piece pushed and the cursor moves on |
| FarmMaps.CoveredRangeIsLost | src/farm_map.rs:84-91 | a range inside one rule comes back as the untranslated `(source_end, end)`: inverted, or empty when the ranges end together |
| FarmMaps.ExampleCRange | src/farm_map.rs:214-222 | the test's rules on `(0, 50)` give `[(42,49),(64,68),(53,50)]`, not the expected `[(81,88)]` |
| FarmMaps.SplitRangeImage | src/farm_map.rs:43-101 | corrected split: the points of its pieces are the lookups of the points of the range, in order |
| FarmMaps.SplitRangeNonEmpty | src/farm_map.rs:43-101 | corrected split: no piece is empty or inverted |
| FarmMaps.IntervalSplit | src/farm_map.rs:43-101 | a half-open interval is the concatenation of its two halves at any middle point |
| FarmMaps.PointsAppend | src/farm_map.rs:43-101 | the points of concatenated piece lists concatenate |
| FarmMaps.LookupAllAppend | src/farm_map.rs:17-41 | pointwise lookup distributes over concatenation |
| FarmMaps.Clamp | src/farm_map.rs:60-90 | clamping stays in bounds and leaves values already in bounds unchanged |
| FarmMaps.GapImage | src/farm_map.rs:72-76 | corrected split: the gap before the first rule maps to itself |
| FarmMaps.MidImage | src/farm_map.rs:78-87 | corrected split: the part inside the first rule maps by its offset, as the lookup does |
| FarmMaps.RestImage | src/farm_map.rs:87-91 | corrected split: after the first rule the lookup is that of the remaining rules |
| FarmMaps.ParseFormattedRules | src/farm_map.rs:140-144 | printed rules whose numbers are below 2^64 parse back to the same rules |
| FarmMaps.BuildFormatted | src/farm_map.rs:138-149 | `try_from` of printed rules whose numbers are below 2^64 gives them sorted by source start |
| Day5.StagesCount | tests/day_5.rs:23-38 | there is one stage more than there are blank lines: each blank closes one and the last is pushed after the loop |
| Day5.StagesKeepRuleLines | tests/day_5.rs:23-38 | the stages together hold exactly the lines that are neither blank nor have a `:`, in order |
| Day5.GroupingKeepsRuleLines | tests/day_5.rs:23-36 | the closed stages and the open one together hold the rule lines, in order |
| Day5.GroupingStep | tests/day_5.rs:23-36 | one line: a `:` line changes nothing, a blank line closes the open stage, any other line joins it |
| Day5.EmptyHasNoColon | tests/day_5.rs:24-28 | the blank-line branch is reachable: a blank line has no `:` |
| Day5.GroupLines | tests/day_5.rs:20-38 | the push loop produces the stages |
| Day5.BuildStages | tests/day_5.rs:20-38 | grouping then `try_into` of every stage gives the stage maps |
| Day5.BuildEach | tests/day_5.rs:29-38 | `try_into` of stage after stage gives the maps in order |
| Day5.BuildStage | tests/day_5.rs:29 | one stage's `try_into().expect(..)` |
| Day5.BuildAll | tests/day_5.rs:29-38 | one map per stage |
| Day5.BuiltAll | tests/day_5.rs:29-38 | maps that are each their stage's build are the whole build |
| Day5.Body | tests/day_5.rs:9-18 | the stage lines are those after the seed line and the two skipped lines |
| Day5.ReadSeeds | tests/day_5.rs:11-15 | the seeds are the numbers after the first `: ` of the first line |
| Day5.MinOf | tests/day_5.rs:55-57 | `min()`: an element of the list that is at most every element |
| Day5.SeedLocation | tests/day_5.rs:45-48 | with `correspond` applied stage by stage, the seed's location is the left fold over the stages in order |
| Day5.LowestSeedLocation | tests/day_5.rs:42-58 | the answer is the location of some seed and at most that of every seed |
| Day5.Part1 | tests/day_5.rs:5-59 | the part 1 answer is the lowest location over the seeds, through the seven stages |
| Day5.SeedRanges | tests/day_5.rs:72-75 | the consecutive (start, length) pairs become the half-open ranges `(start, start + length)` |
| Day5.PairUp | tests/day_5.rs:72-75 | the chunk loop produces those ranges |
| Day5.StageRanges | tests/day_5.rs:107-113 | a stage maps a non-empty list of pieces to a non-empty one |
| Day5.Pipeline | tests/day_5.rs:105-114 | the stages keep the piece list non-empty |
| Day5.StageStep | tests/day_5.rs:107-113 | `new_loc` is the concatenation, in order, of `correspond_range` of every current piece |
| Day5.RangeLocation | tests/day_5.rs:105-116 | a seed range's location is the start of the first piece after the last stage, `locs[0]` |
| Day5.LowestFirstPiece | tests/day_5.rs:102-127 | the answer is some seed range's first-piece start and at most that of every seed range |
| Day5.Part2 | tests/day_5.rs:61-129 | the part 2 answer as written: the lowest first-piece start over the seed ranges |
| Day5.SplitAllImage | tests/day_5.rs:109-111 | corrected: one stage of pieces has as points the lookups of the old points |
| Day5.SplitAllNonEmpty | tests/day_5.rs:109-111 | corrected: no stage produces an empty piece |
| Day5.PipelineSplitImage | tests/day_5.rs:105-114 | corrected: after all stages the points are the locations of the seed points, in order |
| Day5.PointsOfLast | tests/day_5.rs:105-114 | the points of a piece list end with those of its last piece |
| Day5.PointsAboveStarts | tests/day_5.rs:121-127 | every point of a piece list is at or above some piece's start |
| Day5.StartIsPoint | tests/day_5.rs:121-127 | the start of a non-empty piece is one of its points |
| Day5.MinStartIsLowestPoint | tests/day_5.rs:121-127 | over non-empty pieces the least start is the least point |
| Day5.LowestLocation | tests/day_5.rs:102-127 | corrected part 2: the least start of the corrected pipeline is the location of some seed in the ranges and at most that of every such seed |
| Day5.LocateAll | tests/day_5.rs:44-51 | one location per seed |
| CubeGames.MaxInDraws | src/cube_game.rs:15-40 | within one set's draws, at least every amount of that colour, and 0 when the colour is not drawn |
| CubeGames.MaxInSets | src/cube_game.rs:15-40 | over the flattened draws, the largest amount of the colour, or 0 when it never appears |
| CubeGames.ColorMaxUnique | src/cube_game.rs:15-40 | that maximum is unique |
| CubeGames.NewGame | src/cube_game.rs:14-48 | `CubeGame::new` keeps the sets and sets the three maxima |
| CubeGames.ParseColor | src/cube_game.rs:127-132 | only exactly `blue`, `red` and `green` are colours |
| CubeGames.ParseDraw | src/cube_game.rs:119-138 | no space, or an unknown colour, gives `InvalidInputError`; a bad amount gives `ParseIntError`; on success the colour and the parsed amount |
| CubeGames.ParseGame | src/cube_game.rs:59-74 | a line without `: ` gives `InvalidInputError`; on success the game is `new` of its sets |
| CubeGames.ParseGameSets | src/cube_game.rs:67-70 | the sets are the parses of the `; ` pieces, in order |
| CubeGames.ParseSetDraws | src/cube_game.rs:90-97 | the draws are the parses of the `, ` pieces, in order |
| CubeGames.ParseSetFails | src/cube_game.rs:91-94 | the first failing draw's error is the set's error |
| CubeGames.ParseFormattedDraw | src/cube_game.rs:119-138 | a printed draw with an amount below 2^64 parses back to itself |
| CubeGames.ParseFormattedSet | src/cube_game.rs:87-98 | a printed non-empty set with amounts below 2^64 parses back to itself |
| CubeGames.ParseFormattedGame | src/cube_game.rs:59-74 | a printed game line with amounts below 2^64 parses to `new` of its sets |
| CubeGames.UnknownColor | src/cube_game.rs:131 | a colour word other than the three gives `InvalidInputError` |
| CubeGames.BadAmount | src/cube_game.rs:134 | an amount that does not parse gives `ParseIntError` |
| CubeGames.BadSetFails | src/cube_game.rs:67-70 | a set that fails makes the game fail |
| CubeGames.ExampleDraw | src/cube_game.rs:203-208 | "3 blue" parses to (Blue, 3) |
| CubeGames.ExampleSet | src/cube_game.rs:190-201 | "3 blue, 4 red" parses to [Blue 3, Red 4] |
| CubeGames.MaxInSetsIs | src/cube_game.rs:15-40 | an amount drawn and bounding every amount of the colour is its maximum |
| CubeGames.ExampleGame1 | src/cube_game.rs:144-160 | maxima red 4, blue 6, green 2 |
| CubeGames.ExampleGame76 | src/cube_game.rs:162-170 | maxima red 11, blue 6, green 9 |
| CubeGames.ExampleSixSets | src/cube_game.rs:172-188 | maxima red 2, blue 10, green 10 |
| Day2.NonEmptyLines | tests/day_2.rs:11-14 | every kept line is a non-empty input line, and every non-empty input line is kept |
| Day2.KeptPositions | tests/day_2.rs:11-14 | the positions of the non-empty lines: strictly increasing, each a non-empty line, and every non-empty line's position among them |
| Day2.NonEmptyLinesInOrder | tests/day_2.rs:11-14 | the `k`-th kept line is the line at the `k`-th kept position, so every non-empty line is kept once, in input order |
| Day2.GamesOfNonEmptyLines | tests/day_2.rs:11-18 | there are as many games as non-empty lines, and game `k` is the parse of the `k`-th of them |
| Day2.GameLinesPrefix | tests/day_2.rs:11-18 | a prefix of parsable lines is parsable |
| Day2.ReadGames | tests/day_2.rs:9-18 | the loop collects the games of the non-empty lines |
| Day2.PossibleNumbers | tests/day_2.rs:27-36 | the 1-based numbers kept are exactly those of the possible games, increasing |
| Day2.SumOfPossibleByGame | tests/day_2.rs:27-36 | the sum is that of `i + 1` over the possible games' positions |
| Day2.SumOfPossibleAppend | tests/day_2.rs:27-36 | one more game adds its number exactly when it is possible |
| Day2.NonePossible | tests/day_2.rs:30-36 | with no possible game the sum is 0 |
| Day2.NoneWeighted | tests/day_2.rs:30-36 | impossible games add nothing |
| Day2.WeightedBound | tests/day_2.rs:27-36 | the sum is at most `n(n+1)/2`, with equality when every game is possible |
| Day2.SumOfPossibleBound | tests/day_2.rs:27-36 | the answer is at most `n(n+1)/2` |
| Day2.AllPossible | tests/day_2.rs:27-36 | when every game is possible the answer is `n(n+1)/2` |
| Day2.Part1 | tests/day_2.rs:5-39 | the answer is the sum of the numbers of the games with red ≤ 12, blue ≤ 14, green ≤ 13 |
| ScratchCards.MatchCount | src/scratch_card.rs:34-44 | never more than the numbers on the card |
| ScratchCards.MatchCountExtremes | src/scratch_card.rs:34-44 | 0 exactly when no number wins, all exactly when every number wins |
| ScratchCards.MatchCountAppend | src/scratch_card.rs:34-44 | matches of concatenated numbers add, counted with repetition |
| ScratchCards.MatchCountSameWinning | src/scratch_card.rs:22-38 | only membership in the winning numbers matters |
| ScratchCards.MatchCountStep | src/scratch_card.rs:37-41 | one more number adds 1 exactly when it is winning |
| ScratchCards.Wins | src/scratch_card.rs:34-44 | the loop counts the card's numbers found among the winning numbers |
| ScratchCards.Pow2 | src/scratch_card.rs:23-27 | a power of two is at least 1 |
| ScratchCards.ScoreIsPower | src/scratch_card.rs:18-32 | the value is 0 without matches and `2^(wins-1)` otherwise |
| ScratchCards.Value | src/scratch_card.rs:18-32 | the doubling loop computes the score of the match count |
| ScratchCards.ParseCard | src/scratch_card.rs:58-75 | missing `: ` or ` \| ` gives `InvalidInputError`; on success the two halves are the whitespace numbers before and after ` \| ` |
| ScratchCards.CardLineSplits | src/scratch_card.rs:59-64 | a card line splits into its title, winning text and number text |
| ScratchCards.SpacingIgnored | src/scratch_card.rs:65-72 | texts with the same tokens give the same card, so extra spaces are accepted |
| ScratchCards.BadNumberFails | src/scratch_card.rs:65-72 | a token that does not parse, on either side, gives `ParseIntError` |
| ScratchCards.ParseFormattedCard | src/scratch_card.rs:58-75 | a printed card whose numbers are below 2^64 parses back to itself |
| ScratchCards.ExampleCard1 | src/scratch_card.rs:84-88 | 4 matches, value 8 |
| ScratchCards.ExampleCard2 | src/scratch_card.rs:90-94 | 2 matches, value 2 |
| ScratchCards.ExampleCard3 | src/scratch_card.rs:96-100 | 2 matches, value 2 |
| ScratchCards.ExampleCard5 | src/scratch_card.rs:102-106 | no match, value 0 |
| Day4.LineWins | tests/day_4.rs:21-22 | one win count per line, the wins of its card |
| Day4.AddCopies | tests/day_4.rs:24-26 | adds copies without changing the length |
| Day4.Cascade | tests/day_4.rs:11-26 | one count per card after the first `k` cards are processed |
| Day4.CascadeSettled | tests/day_4.rs:20-26 | card `m`'s count never changes once card `m` is reached, so `count_cards[i]` is final when read |
| Day4.CascadeGrows | tests/day_4.rs:11-25 | counts start at 1 and never decrease |
| Day4.CascadeReceived | tests/day_4.rs:11-26 | each count is 1 plus the copies won from earlier cards |
| Day4.FinalCount | tests/day_4.rs:11-37 | the final count is 1 plus the copies received |
| Day4.ReceivedFromEarlier | tests/day_4.rs:20-26 | copies come only from earlier cards |
| Day4.NoWinsNoCopies | tests/day_4.rs:11-26 | with no wins anywhere every count stays 1 |
| Day4.Scores | tests/day_4.rs:28 | the value of every card |
| Day4.AddCopiesRun | tests/day_4.rs:24-26 | the inner loop on the array adds `times` to `count_cards[i+1..=i+wins]` |
| Day4.PlayCard | tests/day_4.rs:20-28 | one card moves the array one cascade step on and yields its value |
| Day4.PlayAll | tests/day_4.rs:15-29 | the loop over the lines leaves the counts at the full cascade and adds up every card's value |
| Day4.PlayCards | tests/day_4.rs:5-38 | the total is the sum of the values, and the cards are the sum of the final counts |
| CamelHands.CardFromChar | src/camel_hand.rs:75-97 | a digit maps to its value, T J Q K A to 10 to 14; any other character gives `InvalidInputError` |
| CamelHands.CardValues | src/camel_hand.rs:79-95 | the card of a character and value exists exactly when the value is at most 14 and the character is its symbol |
| CamelHands.Values | src/camel_hand.rs:69-73 | cards compare by their values only |
| CamelHands.Occurrences | src/camel_hand.rs:122 | a count is at most the hand's size |
| CamelHands.OccurrencesPositive | src/camel_hand.rs:122 | every card of the hand counts at least once |
| CamelHands.OccurrencesAll | src/camel_hand.rs:122 | a symbol counted over the whole hand is every card's symbol |
| CamelHands.OccurrencesOfTwo | src/camel_hand.rs:122 | counts of two symbols add up to at most the hand's size |
| CamelHands.DistinctSymbolsSpec | src/camel_hand.rs:116-125 | the map keys are distinct and are exactly the symbols in the hand |
| CamelHands.DistinctSymbolsStep | src/camel_hand.rs:118-125 | a card adds its symbol exactly when it is not yet a key |
| CamelHands.Counts | src/camel_hand.rs:116-127 | one count per distinct symbol |
| CamelHands.MoreFrequentIsStrictWeakOrder | src/camel_hand.rs:128 | the descending comparison of counts is a strict weak order |
| CamelHands.SortedCounts | src/camel_hand.rs:127-128 | the sorted counts keep one per symbol |
| CamelHands.LargestCount | src/camel_hand.rs:127-128 | the first sorted count is the largest count of any card, and some card has it |
| CamelHands.Classify | src/camel_hand.rs:132-141 | a type is given exactly when the first count is between 1 and 5 |
| CamelHands.SmallHandHasType | src/camel_hand.rs:132-141 | a hand of 1 to 5 cards always has a type |
| CamelHands.TooManyAlike | src/camel_hand.rs:140 | six equal cards or more match no arm |
| CamelHands.FiveCardTypes | src/camel_hand.rs:132-141 | on five cards: five alike, four alike, three alike for a full house or three of a kind, pairs, and all distinct for a high card |
| CamelHands.HandStrength | src/camel_hand.rs:116-141 | the counting loop and the match give the hand type of the cards |
| CamelHands.ParseHand | src/camel_hand.rs:102-146 | no space gives `InvalidInputError`; on success the cards are those of the part before the space, the bid parses, the first card is kept and the type is that of the cards |
| CamelHands.FromStr | src/camel_hand.rs:102-146 | the loops compute that parse |
| CamelHands.Symbols | src/camel_hand.rs:107-110 | a hand's characters, one per card |
| CamelHands.ValidSymbols | src/camel_hand.rs:107-110 | valid cards' characters avoid the space and map back to the cards |
| CamelHands.ValidLine | src/camel_hand.rs:102-146 | a printed hand and a bid below 2^64 parse to the hand with its first card, bid and type |
| CamelHands.ParseFormattedHand | src/camel_hand.rs:102-146 | the same for any hand with a type |
| CamelHands.EmptyHandFails | src/camel_hand.rs:111-114 | an empty hand fails, lacking a first card |
| CamelHands.BadBidFails | src/camel_hand.rs:145 | a bid that does not parse gives `ParseIntError` |
| CamelHands.SixAlikeFails | src/camel_hand.rs:140 | a hand with six equal cards and a bid below 2^64 gives `InvalidInputError` |
| CamelHands.CompareValuesEqual | src/camel_hand.rs:38 | the lexicographic comparison is `Equal` exactly on equal values |
| CamelHands.CompareValuesFlip | src/camel_hand.rs:38 | swapping the sides reverses it |
| CamelHands.CompareValuesTransitive | src/camel_hand.rs:38 | `Less` is transitive |
| CamelHands.CompareAtDifference | src/camel_hand.rs:38 | a common prefix and then a smaller value gives `Less` |
| CamelHands.CompareOfPrefix | src/camel_hand.rs:38 | a proper prefix is `Less` |
| CamelHands.CompareLessBelow | src/camel_hand.rs:38 | `Less` means lexicographically below |
| CamelHands.FirstDifference | src/camel_hand.rs:38 | `Less` exactly when lexicographically below |
| CamelHands.HandLessIsStrictWeakOrder | src/camel_hand.rs:33-43 | the hand order is a strict weak order |
| CamelHands.HandOrder | src/camel_hand.rs:33-64 | a hand is less exactly when its type is earlier in the declaration (FiveOfAKind first), or the types are equal and its card values are lexicographically above the other's |
| CamelHands.SortHands | src/camel_hand.rs:176 | `sort` gives a sorted permutation of the hands |
| CamelHands.ExampleSymbols | src/camel_hand.rs:155 | five parsed characters give valid cards spelling the hand |
| CamelHands.ExampleOnePairSymbols | src/camel_hand.rs:153-158 | "32T3K" has the symbols 3, 2, T, K |
| CamelHands.ExampleOnePairType | src/camel_hand.rs:153-158 | "32T3K" is OnePair |
| CamelHands.ExampleOnePairLine | src/camel_hand.rs:155 | "32T3K 765" parses to that hand with bid 765 |
| CamelHands.ExampleThreeOfAKindSymbols | src/camel_hand.rs:160-165 | "T55J5" has the symbols T, 5, J |
| CamelHands.ExampleThreeOfAKindType | src/camel_hand.rs:160-165 | "T55J5" is ThreeOfAKind |
| CamelHands.ExampleThreeOfAKindLine | src/camel_hand.rs:162 | "T55J5 684" parses with bid 684 |
| CamelHands.ExampleAcesSymbols | src/camel_hand.rs:172 | "A55J5" has the symbols A, 5, J |
| CamelHands.ExampleAcesType | src/camel_hand.rs:172 | "A55J5" is ThreeOfAKind |
| CamelHands.ExampleAcesLine | src/camel_hand.rs:172 | "A55J5 684" parses with bid 684 |
| CamelHands.ExampleTwoPairSymbols | src/camel_hand.rs:173 | "KK677" has the symbols K, 6, 7 |
| CamelHands.ExampleTwoPairType | src/camel_hand.rs:173 | "KK677" is TwoPair |
| CamelHands.ExampleTwoPairLine | src/camel_hand.rs:173 | "KK677 28" parses with bid 28 |
| CamelHands.ExampleSort | src/camel_hand.rs:167-183 | the four example hands sort to A55J5, T55J5, KK677, 32T3K |
| Networks.DirectionFromChar | src/network.rs:28-34 | `L` is Left, `R` is Right, any other character `InvalidInputError` |
| Networks.ParseDirectionsSpec | src/network.rs:125-129 | the direction line parses exactly when it is all `L` and `R`, one direction per character |
| Networks.ParseFormattedDirections | src/network.rs:125-129 | printed directions parse back |
| Networks.ParseNode | src/network.rs:53-61 | a failure is `InvalidInputError`; a missing ` = ` or a too-short right side is the precondition |
| Networks.ParsedNodeShape | src/network.rs:53-61 | a parsed line is the name, ` = `, one character, left, `, `, right and one character |
| Networks.ParseFormattedNode | src/network.rs:53-61 | `ID = (A, B)` parses to id `ID`, left `A`, right `B` |
| Networks.BracketsIgnored | src/network.rs:55-58 | one character is stripped at each end of the right side, whatever it is; a missing `, ` gives `InvalidInputError` |
| Networks.ExampleNode | src/network.rs:53-61 | "AAA = (BBB, CCC)" parses to (AAA, BBB, CCC) |
| Networks.IndexOfSpec | src/network.rs:133-141 | the index holds exactly the node names, each mapping to its last position in the list |
| Networks.IndexOfAppend | src/network.rs:135-139 | inserting one more node maps its name to its position, overwriting any earlier entry for that name |
| Networks.NodeOfLine | src/network.rs:137 | a valid node line's node |
| Networks.ReadNodes | src/network.rs:133-141 | the loop parses every node line in order and builds the index with `insert`, a later duplicate overwriting an earlier one |
| Networks.NetworkFromLines | src/network.rs:118-145 | the directions are parsed from the first line, the second is skipped, and the rest are nodes with their index; it never returns an error |
| Networks.NodeOfBuilt | src/network.rs:97-101 | on a built network, the lookup of a name succeeds exactly when some node has it, and gives the last such node |
| Networks.CycleIndex | src/network.rs:90-95 | the cyclic direction index stays within the directions |
| Networks.CycleIndexNext | src/network.rs:90-95 | the next index is one more, or 0 after the last direction |
| Networks.Walk | src/network.rs:83-115 | `Ok(n)` means `1 ≤ n ≤ fuel` and the first `n` moves from AAA reach ZZZ for the first time; an error means the walk reached a node missing from the index or had no direction |
| Networks.StuckStaysStuck | src/network.rs:97-111 | once the walk fails it stays failed |
| Networks.NoDirectionsStuck | src/network.rs:109-111 | with no directions the first step already fails |
| Networks.MissingNodeStuck | src/network.rs:97-101 | a node missing from the index ends the walk in an error |
| Networks.FirstArrivalUnique | src/network.rs:89-108 | the number of steps to the first arrival at ZZZ is unique |
| Networks.ExampleWalk | src/network.rs:83-115 | on a three-node network with `LLR` the walk takes 6 steps |
| Calibration.FindFirstDigit | src/callibration_value.rs:9-11 | `None` exactly when there is no digit; otherwise a digit |
| Calibration.FindFirstDigitAt | src/callibration_value.rs:9-11 | the character found is the first digit of the line |
| Calibration.Reverse | src/callibration_value.rs:18 | the reversal has the same length, with the characters in reverse order |
| Calibration.FindLastDigitAt | src/callibration_value.rs:17-19 | the first digit of the reversed line is the line's last digit |
| Calibration.FirstDigitUnique | src/callibration_value.rs:9-11 | the first digit position is unique |
| Calibration.LastDigitUnique | src/callibration_value.rs:17-19 | the last digit position is unique |
| Calibration.DigitPositions | src/callibration_value.rs:15-19 | a line with a digit has a first and a last digit, the first not after the last |
| Calibration.CalibrationValueIs | src/callibration_value.rs:14-34 | `new` keeps the line, its string is the first and the last digit, and its value is `10·first + last`, at most 99 |
| Calibration.SingleDigitTwice | src/callibration_value.rs:17-19 | a line with one digit uses it twice, `11·digit` |
| Calibration.NonDigitsIgnored | src/callibration_value.rs:9-27 | non-digits before and after do not change the value |
| Calibration.ParseCalibrationValue | src/callibration_value.rs:42-48 | `from_str` always succeeds and keeps the line |
| Calibration.ParsedValueBounded | src/callibration_value.rs:21-47 | the parsed value has a two-character string and is at most 99 |
| Calibration.ExampleLines | src/callibration_value.rs:14-34 | "1abc2" gives 12 and "treb7uchet" gives 77 |
| Day3V2.NewPartNumber | tests/day_3_v2.rs:13-21 | the row, column, length and value are those given; the positions are stated by `OverlappingIff` |
| Day3V2.OverlappingIff | tests/day_3_v2.rs:13-25 | `is_overlapping` holds exactly on the cells of the number's row from `c` to `c+len-1` |
| Day3V2.RowCellsIn | tests/day_3_v2.rs:136-142 | one row of the inner loop holds that row's columns except `(r, c)` |
| Day3V2.WindowCellsIn | tests/day_3_v2.rs:135-143 | the nested loops hold every cell of the window except `(r, c)` |
| Day3V2.NeighborsIn | tests/day_3_v2.rs:128-146 | the neighbours are exactly the cells with row `max(r-1,0)..=r+1` and column `max(c-1,0)..=c+len`, except `(r, c)` only |
| Day3V2.GetNeighbors | tests/day_3_v2.rs:128-146 | the pushing loops produce the neighbours |
| Day3V2.RunStart | tests/day_3_v2.rs:52-54 | the start of the digit run ending at `e`: all digits to `e` and no digit before it |
| Day3V2.ScanRow | tests/day_3_v2.rs:36-85 | over one row whose digit runs are below 2^64 (the `expect` of the parse), the loop's part numbers, symbols and stars are those of the row |
| Day3V2.RowPartsAreRuns | tests/day_3_v2.rs:52-79 | each part number is a maximal digit run, with its start, length and decimal value |
| Day3V2.RunsAreRowParts | tests/day_3_v2.rs:56-79 | every maximal digit run is recorded |
| Day3V2.RowPartsOrdered | tests/day_3_v2.rs:36-85 | the numbers of a row come left to right with a gap between them |
| Day3V2.RowCellsWhereIn | tests/day_3_v2.rs:41-47 | a symbol is any character neither a digit nor `.`; `*` is also a star |
| Day3V2.TextCellsWhereIn | tests/day_3_v2.rs:36-47 | over the text, the symbol and star cells are exactly those holding such a character |
| Day3V2.ScanText | tests/day_3_v2.rs:36-85 | for rows whose digit runs are below 2^64, the row loop gives the part numbers, symbols and stars of the whole text |
| Day3V2.Part1 | tests/day_3_v2.rs:87-99 | each part number is added once when a neighbour is a symbol |
| Day3V2.TouchesSymbolIff | tests/day_3_v2.rs:89-98 | a part number counts exactly when one of its neighbours holds a symbol |
| Day3V2.AddValues | tests/day_3_v2.rs:111-117 | values already collected are kept in front |
| Day3V2.AddValuesSpec | tests/day_3_v2.rs:111-117 | collected values stay distinct, and a value is added exactly when a part covering the cell has it |
| Day3V2.GearValuesSpec | tests/day_3_v2.rs:108-118 | the collected values are distinct, and are exactly those of parts covering some neighbour |
| Day3V2.Part2 | tests/day_3_v2.rs:103-123 | for each star, the product of the first two distinct values is added when there are more than one |
| Day3V2.TwoValuesRatio | tests/day_3_v2.rs:120-121 | with exactly two distinct values about a star, their product is added |
| Day3V2.Totals | tests/day_3_v2.rs:28-126 | for rows whose digit runs are below 2^64, both totals over the scanned text |
| Day3.Pieces | tests/day_3.rs:37 | `split` at delimiters always gives at least one piece |
| Day3.PieceStartShift | tests/day_3.rs:35-60 | piece starts after the first are shifted by its length and the delimiter |
| Day3.PieceStartHead | tests/day_3.rs:35-60 | lengthening the first piece shifts the later starts |
| Day3.PieceBounds | tests/day_3.rs:37 | each piece but the last is followed by a delimiter, and the last one ends the line |
| Day3.PieceSlice | tests/day_3.rs:37 | a piece is the text of the line from its start column |
| Day3.PieceClean | tests/day_3.rs:37 | a piece holds no delimiter |
| Day3.RowWindow | tests/day_3.rs:67-74 | the rows from `line-1` to `line+1`, clamped to the text |
| Day3.ColumnWindow | tests/day_3.rs:78-85 | the columns from `max(column-len-1, 0)`, up to `column` inclusive, or `column-1` when `column` is the row's length; the precondition is `column ≥ len` |
| Day3.FindAdjacentSymbol | tests/day_3.rs:66-100 | true exactly when some character in the window is in `SYMBOLS` |
| Day3.SumLine | tests/day_3.rs:35-60 | `index` is each token's end column after `index += split.len()`, and the row adds the tokens with an adjacent symbol |
| Day3.SumLines | tests/day_3.rs:28-64 | the total of the tokens with an adjacent symbol, skipping empty rows |
| Day3.NoSymbolsNoSum | tests/day_3.rs:28-64 | a text without a symbol sums to 0 |
| Day3.NoSymbolsRow | tests/day_3.rs:35-60 | a row of such a text adds nothing |
| Day6.Calculate | tests/day_6.rs:65-79 | the count of speeds `1 ≤ s < t` with `s·(t−s) > d` |
| Day6.WinsBelowCount | tests/day_6.rs:70 | below `n` at most `n − 1` speeds are tried |
| Day6.WinsBounded | tests/day_6.rs:70 | 0 when `t ≤ 1`, at most `t − 1` otherwise |
| Day6.WinsSymmetric | tests/day_6.rs:71 | `s` wins exactly when `t − s` does |
| Day6.WinsShrink | tests/day_6.rs:73 | a longer record keeps only a subset of the winning speeds, so the count does not grow |
| Day6.ExampleRace | tests/day_6.rs:65-79 | a 7 ms race with record 9 is won by speeds 2 to 5 |
| Day6.SubsetCount | tests/day_6.rs:73 | a subset is no larger |
| Day6.RaceProduct | tests/day_6.rs:24-30 | the fold from 1 is the product of the counts, pairing time `i` with distance `i` |
| Day6.ProductZero | tests/day_6.rs:24-30 | the product is 0 exactly when some race cannot be won |
| Day6.TrimmedNumbers | tests/day_6.rs:12-16 | in part 1 a line reads as the numbers after its `: ` |
| Day6.MergedNumber | tests/day_6.rs:42-46 | in part 2 a line of digits and spaces has its numbers exactly when the number its digits spell is below 2^64, and then reads as that one number |
| Day6.ParseSheet | tests/day_6.rs:11-17 | the line loop reads each line's numbers in order |
| Day6.Part | tests/day_6.rs:5-63 | each part's answer is the product of the counts, with line 0 as the times and line 1 as the distances |

## Left out

- Reading the input file (`fs::read_to_string`) and the assertions against the resource
  files' answers are not modelled; each entry point takes its lines as a parameter.
- `str::lines` is not modelled: the text is given already split into lines.
- `println!` output is not modelled. Unused variables are not modelled either: the `result`
  of `correspond` and `correspond_range`, the `ranges` of `try_from`, the `INFINITY` import,
  and the `speed` of `calculate`.
- Machine integers: `usize` is `nat`. Overflow panics of arithmetic are not modelled; the
  `PosOverflow` error of `parse::<usize>()` is. That covers `i + 1` in
  day 2, `times` and `result` in day 6, the doubling in `value`, and `c + len + 1` in
  `get_neighbors`.
- Iteration order of `HashMap` in `from_str` of `src/camel_hand.rs` is not modelled. The
  counts are taken in first-appearance order and then sorted, and only their sorted sequence
  is used.
- `CamelHandParseError::TryFromIntError` and `NetworkParseError::ParseIntError` /
  `TryFromIntError` are declared but no input produces them; they are kept as constructors
  only.
- Networks.Walk: the source loops forever when ZZZ is never reached. The model takes a `fuel`
  bound and returns `OutOfFuel` after that many steps without arriving.
- Day 5 grouping: the push loop is modelled with the same branches. The `: ` line skip and the
  two skipped lines are read through `Body`.
- Day5.Part2: it states what the test computes, the first piece of each range through the
  as-written `correspond_range`. That is not the lowest location (see "## Findings");
  Day5.LowestLocation states that one.
- Text positions: `line.len()` in `tests/day_3.rs` and `tests/day_3_v2.rs` counts bytes while
  the scans go by characters, and `&node[1..node.len() - 1]` in `src/network.rs:55` slices by
  bytes and panics when the first or last character is wider than a byte. The model counts
  characters and strips one character at each end, which agrees on ASCII input.
- Day3.ColumnWindow: the slice of `line.chars().collect()` is taken directly on the string.
- `test_day_3_part_1_line_parsing` in `tests/day_3.rs` is not a test (its attribute is
  commented out) and is not modelled.
- Day3.SumLine: `split.parse::<usize>().expect(..)` is a precondition, met for tokens with an
  adjacent symbol; a panic on other inputs is not modelled.
- tests/2022_day_1.rs is not part of this model: it uses modules that are not in the
  repository.
- tests/day_1.rs is not part of this model: it calls an `add` that is not in the repository.
- tests/day_7.rs and tests/day_8.rs are not part of this model: they only read a file and call
  the code modelled above.
- src/model/food.rs is not part of this model: it is a one-line `u32` parse wrapper.
- Examples from the tests are stated on the parsed values where the test line is long. The
  parses of short test lines are proved directly.

## Findings

| source | as written | input that shows it | evidently intended | confidence | as-written member | corrected member |
|---|---|---|---|---|---|---|
| src/farm_map.rs:78-91 | `difference` already includes `start`, line 86 adds it again, and line 90 pushes the untranslated `(line_end, end)` | rules `49 53 8 / 0 11 42 / 42 0 7 / 57 7 4` on `(0, 50)` give `[(42,49),(64,68),(53,50)]`, and the test at src/farm_map.rs:221 expects `[(81,88)]` | the pieces of the range, each translated by its rule's offset, covering exactly the images of its points | not executed | FarmMaps.ExampleCRange, FarmMaps.CoveredRangeIsLost | FarmMaps.SplitRangeImage, Day5.LowestLocation |

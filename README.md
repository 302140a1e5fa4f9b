# Advent of Code solvers, modelled in Dafny

The repository solves Advent of Code 2023 puzzles, each day in one or
more of Rust, Python and C.  Every solver reads a puzzle input file,
parses it into the day's entities, computes one number and prints it.
This project models the solvers' parsing and computation on values (the
file's content is a parameter), keeps the source's error returns, its
panics and its exceptions as `Result` and `Option` values (each module
says which value stands for which), and proves what each computation
means.

Modules, one per solver, with the shared pieces on their own:

- `Wrappers` (wrappers.dfy): `Option` and `Result`, and the gathering of a
  list of results into the list of their values.
- `Text` (text.dfy): the string operations the solvers take from their
  standard libraries (Rust's `split`, `split_whitespace`, `trim`,
  `parse::<usize>`, Python's `split`, `strip`, `int`, indexing and
  slicing).
- `PipeMaze` (pipe_maze.dfy): the pipe shapes, redirection table and
  one-step move shared by the two Rust day 10 solvers, and the walk
  round the loop built from them.
- `Day10Rust2`, `Day10Rust1`, `Day10Py1`: the day 10 pipe maze
  (rust/d10_2, rust/d10_1, py/10/prog_1.py).
- `Day07Rust2`, `Day07Py1`: Camel Cards (rust/d07_2 with jokers,
  07/prog_1.py without).
- `Calibration` (calibration.dfy): the day 1 reference definitions (first
  and last digit of a line, the calibration sum) and the greedy
  subsequence count behind the letter buffers of rust/d01_2.
- `Day01Rust1`, `Day01Rust2`, `Day01Py`, `Day01Py1`, `Day01C`: the day 1
  calibration solvers (rust/d01_1 and py/01/prog_1.py and
  c/d01/src/prog_2.c with digits only, rust/d01_2 and 01/prog.py with
  spelled-out digits too).
- `Cubes` (cubes.dfy): the day 2 games of cubes (draws of coloured
  cubes, the most shown per colour, possibility with a bag, the power)
  and the puzzle's record format.
- `Day02Rust`, `Day02Rust1`, `Day02Rust2`, `Day02Py`: the day 2 solvers
  (the line and input parser shared by rust/d02_01 and rust/d02_2, their
  two main loops, and py/02/prog.py).
- `Schematic` (schematic.dfy): the day 3 engine schematic shared by its
  solvers: the grid framed by dots that the Rust solvers build, runs of
  digits with their start, end and value, and decimal lengths.
- `Day03Rust2`, `Day03Rust1`, `Day03Py`, `Day03Py2`: the day 3 solvers
  (gear ratios by surface intersection in rust/d03_2, valid part numbers
  in rust/d03_01, one dict per number in 03/prog.py, one dict per '*' in
  py/03/prog_2.py).
- `Scratchcards` (scratchcards.dfy): the day 4 scratchcards (matches,
  points, the instances a table of cards ends with) and the puzzle's card
  line format.
- `Day04Rust`, `Day04Rust1`, `Day04Rust2`, `Day04Py`: the day 4 solvers
  (the card parser and scoring shared by rust/d04_1 and rust/d04_2, their
  two main loops, and py/04/prog.py).
- `Almanac` (almanac.dfy): the day 5 reference definitions: a rule
  "dst src len", the conversion of a number by the first rule covering it
  (else the number itself), a number sent through the maps in turn, and
  the least of the locations.
- `Day05Rust1`: rust/d05_1, the almanac read line by line into entries
  of `u64` ranges, each seed walked along the chain seed, soil, ...,
  location, and the lowest location kept with its seed.
- `Day05Py` (day05_py.dfy): what 05/prog_1.py and py/05/prog_2.py share:
  the scan of the seven map blocks, the vector dicts and the sorted
  insertion of `process_a_mapping_rule`.
- `Day05Py1`: 05/prog_1.py, the seeds as single numbers, each sent
  through the vectors of every map, the lowest location printed.
- `Day05Py2`: py/05/prog_2.py as written, the seeds as ranges, the
  vectors completed to reach from 0 to `max_range_stop`, every range cut
  into the pieces the vectors send it to, the lowest start printed.
- `Day05Py2Fixed`: py/05/prog_2.py with its two faulty steps corrected,
  and the proof that it then prints the lowest location of any seed.
- `Day05Py2Findings`: two inputs on which py/05/prog_2.py as written
  prints another number than the lowest location.
- `BoatRace` (boat_race.dfy): the day 6 boat races (the distance of a
  hold, the ways to win, the holds reaching the record, products of
  counts) and the puzzle's race sheet format.
- `Day06Rust1`, `Day06Rust2`, `Day06Py1`, `Day06Py2`: the day 6 solvers
  (rust/d06_1 and py/06/prog_1.py over every race of the sheet,
  rust/d06_2 and 06/prog_2.py over the one race its values make with the
  spaces between them ignored).
- `Oasis` (oasis.dfy): the day 9 histories (the differences of a
  history, its difference table down to a row of zeros, the value
  extrapolated before it, the sum over a report) and the text of a
  history.
- `Day09Rust2`, `Day09Py2`: the day 9 solvers extrapolating backwards
  (rust/d09_2 folding the rows of the table from the deepest up,
  09/prog_2.py inserting the new first values into the rows).
- `Wasteland` (wasteland.dfy): the day 8 arithmetic: gcd, lcm and the lcm
  of a list, and the place of a move in instructions that repeat.
- `Day08Rust1`, `Day08Rust2`: the Rust day 8 solvers (rust/d08_1 reads the
  directions and nodes and prints them back; rust/d08_2 walks from every
  id ending with 'A' to one ending with 'Z' and folds the counts with
  `lcm`).
- `Day08Py` (day08_py.dfy): what the Python day 8 scripts share: the
  ordered dict of `parse_input`, `reindex_as_int_nodes`, and the walk over
  instructions that repeat, with its end tested before each move.
- `Day08Py2`, `Day08Lockstep`, `Day08Py1`: the Python day 8 scripts
  (py/08/prog_2.py walking each start on its own and taking the lcm,
  08/prog_2.py moving every start in lockstep up to ten million rounds,
  py/08/prog_1.py walking from 'AAA' to 'ZZZ').

Rust's `HashMap` and `Vec` are Dafny maps and sequences passed in and
returned updated; Python objects whose attributes are set after
construction are classes (`Day07Py1.RicoHand`).  `usize`, `u64` and `i64`
are unbounded integers except where a wrap-around changes the result
(the `u8` token counter of rust/d07_2 is modelled modulo 256).

## Model

| member | source | states |
|---|---|---|
| Text.Decimal | 07/prog_1.py:41 | the digits of n, without leading zeros, whose value is n |
| Text.ParseUnsigned | rust/d07_2/src/main.rs:262 | `parse::<usize>`: Some exactly for an optional '+' and a non-empty digit run whose value fits |
| Text.ParseUnsignedSpec | rust/d07_2/src/main.rs:262 | ParseUnsigned accepts exactly the valid strings, with the value of their digits |
| Text.ParseDecimal | rust/d07_2/src/main.rs:262 | the decimal digits of a value that fits parse back to that value |
| Text.Trim | rust/d07_2/src/main.rs:246 | the result neither starts nor ends with whitespace, and a string without whitespace is kept |
| Text.TrimSpec | rust/d07_2/src/main.rs:246 | the result is the slice of the input between its leading and trailing whitespace |
| Text.TrimIdempotent | rust/d07_2/src/main.rs:246 | trimming twice is trimming once |
| Text.PyIntDigits | 07/prog_1.py:41 | `int` reads a run of decimal digits as their value |
| Text.PyIntNegative | 07/prog_1.py:41 | `int` reads a minus sign and a run of digits as the negated value |
| Text.TrimFixed | rust/d07_2/src/main.rs:246 | a string that starts and ends with non-whitespace is its own trim |
| Text.SplitOnJoin | 07/prog_1.py:41 | joining the pieces of a split with the separator gives back the string |
| Text.Split | 07/prog_1.py:41 | at least one piece, the whole string when the separator does not occur |
| Text.SplitSpec | 07/prog_1.py:41 | the pieces hold no separator and joined with it give back the input |
| Text.SplitWhitespace | rust/d07_2/src/main.rs:246 | the pieces are the non-empty maximal runs of non-whitespace |
| Text.SplitWhitespaceSpread | rust/d07_2/src/main.rs:246 | any words (non-empty, no whitespace) laid out with whitespace runs around them, non-empty between them, split back into exactly those words, in order |
| Text.SplitWhitespaceGaps | rust/d07_2/src/main.rs:246 | every string is its pieces put back between its whitespace runs (Gaps), so the pieces are the text minus its whitespace, in order |
| Text.GapsShape | rust/d07_2/src/main.rs:246 | the runs between the pieces are one more than the pieces, all whitespace, and non-empty between two pieces |
| Text.SplitWhitespaceWord | rust/d07_2/src/main.rs:246 | a word followed by whitespace or nothing is split off as one piece |
| Text.SplitWhitespaceBlank | rust/d07_2/src/main.rs:246 | leading whitespace yields no piece |
| PipeMaze.Heading | rust/d10_2/src/main.rs:197-218 | the heading of a unit vector, None for every other vector; inverse of the heading's vector |
| PipeMaze.TileOfChar | rust/d10_2/src/main.rs:268-277 | the shape a map character stands for |
| PipeMaze.CharRoundTrip | rust/d10_2/src/main.rs:37-48 | every shape but Unknown is parsed back from `get_char` |
| PipeMaze.GetPipeRedirection | rust/d10_2/src/main.rs:51-105 | the offset a pipe sends a walker along; an error for a heading it does not accept |
| PipeMaze.AcceptedHeadings | rust/d10_2/src/main.rs:51-105 | each pipe accepts exactly two headings, Ground and Unknown none |
| PipeMaze.RedirectionReversible | rust/d10_2/src/main.rs:51-105 | coming back along the offset left by, a pipe sends the walker back the way it came |
| PipeMaze.RedirectionInjective | rust/d10_2/src/main.rs:51-105 | two accepted headings leave along different offsets |
| PipeMaze.NextCoords | rust/d10_2/src/main.rs:196-230 | `get_next_coords`: enters through one arm and leaves through the other, or fails |
| PipeMaze.NextCoordsReversible | rust/d10_2/src/main.rs:196-230 | a move can be walked back from the tile reached |
| PipeMaze.FitsCases | rust/d10_2/src/main.rs:378-383 | a pipe shape fits the start exactly when the neighbours at both its arms accept |
| PipeMaze.ResolveStart | rust/d10_2/src/main.rs:378-384 | the shape chosen is the first of the chain that fits; one exists iff two neighbours accept, and with exactly two it joins them |
| PipeMaze.Step | rust/d10_2/src/main.rs:426-432 | one loop iteration moves the walker to (current, next) |
| PipeMaze.StepInjective | rust/d10_2/src/main.rs:426-432 | distinct walker states never step into the same state |
| PipeMaze.Run | rust/d10_2/src/main.rs:425-441 | the state after n iterations, or the first failure |
| PipeMaze.ReachedIsFresh | rust/d10_2/src/main.rs:425-441 | a walk that has not returned to the start reaches only new states |
| PipeMaze.WalkExtend | rust/d10_2/src/main.rs:425-441 | the walk extends without repeats and is bounded by the states over the map, so it ends |
| PipeMaze.WalkReturns | rust/d10_2/src/main.rs:425 | a walk that reaches the start tile returns there for the first time |
| PipeMaze.StartScanStep | rust/d10_2/src/main.rs:276 | scanning one more character keeps `start_coords` at the last 'S' met |
| Day10Rust2.ParseTiles | rust/d10_2/src/main.rs:259-282 | the map holds one tile per character, the one it stands for, and the start is the last 'S'; an unknown character fails |
| Day10Rust2.ParseRow | rust/d10_2/src/main.rs:266-280 | one line's characters are added at x = 0, 1, ... of row y |
| Day10Rust2.SidesOf | rust/d10_2/src/main.rs:359-374 | the sides whose neighbour accepts a move from the start |
| Day10Rust2.InitStartTile | rust/d10_2/src/main.rs:346-392 | a missing neighbour fails; otherwise only the start tile changes, to the shape ResolveStart picks, or the resolution fails |
| Day10Rust2.ConnectStart | rust/d10_2/src/main.rs:357-392 | with every neighbour present, the start tile takes the shape ResolveStart picks from the neighbours that accept, exactly when two or more do |
| Day10Rust2.GetInput | rust/d10_2/src/main.rs:233-293 | an unknown char fails exactly when the text holds one; otherwise, for the one map the parse describes and its last 'S', a missing neighbour fails, fewer than two accepting sides fail, and else the start tile alone takes ResolveStart's shape |
| Day10Rust2.StartShaped | rust/d10_2/src/main.rs:276-290 | a start whose four neighbours exist is the last 'S' of the text, and shaping it leaves every other tile as parsed |
| Day10Rust2.FirstOffset | rust/d10_2/src/main.rs:403-422 | the redirection of the first of North, East, South, West the start shape accepts |
| Day10Rust2.FirstStepTakesOtherArm | rust/d10_2/src/main.rs:403-432 | `last_tile` is at one arm of the start and the first move leaves through the other |
| Day10Rust2.StartWalker | rust/d10_2/src/main.rs:400-422 | the walker the loop starts from, or the failure before it |
| Day10Rust2.FollowPipes | rust/d10_2/src/main.rs:394-444 | the number of moves back to the start (at least one), with exactly the tiles stepped onto stamped Loop, or the failed move |
| Day10Rust2.WalkAndStamp | rust/d10_2/src/main.rs:425-441 | the loop stamps every tile it steps onto and ends at the first return to the start |
| Day10Rust1.ParseTiles | rust/d10_1/src/main.rs:239-262 | as in d10_2, with an `is_start` flag in place of a status |
| Day10Rust1.InitStartTile | rust/d10_1/src/main.rs:285-331 | a missing neighbour fails; otherwise only the start tile changes, to the shape ResolveStart picks |
| Day10Rust1.ConnectStart | rust/d10_1/src/main.rs:296-331 | with every neighbour present, the start tile takes the shape ResolveStart picks from the neighbours that accept, exactly when two or more do |
| Day10Rust1.GetInput | rust/d10_1/src/main.rs:213-273 | as in d10_2: an unknown char fails exactly when the text holds one; otherwise a missing neighbour or fewer than two accepting sides fail, and else the start tile alone takes ResolveStart's shape |
| Day10Rust1.StartWalker | rust/d10_1/src/main.rs:338-339 | `last_tile` is the start minus the redirection of the given direction; each unwrap on the way can fail |
| Day10Rust1.FirstMoveFromStart | rust/d10_1/src/main.rs:338-344 | only a straight start pipe gets past the first move; with North only NorthSouth does |
| Day10Rust1.FollowPipes | rust/d10_1/src/main.rs:333-356 | read-only; the number of moves back to the start tile, or the failure |
| Day10Rust1.Farthest | rust/d10_1/src/main.rs:402 | half the loop length is the distance to the farthest tile |
| Day10Py1.ParseInput | py/10/prog_1.py:13-18 | the maze frame holds the lines and the dist frame -1 under every label; non-square input is refused as pandas refuses it |
| Day10Py1.FindMazeStart | py/10/prog_1.py:20-27 | the first 'S' column by column, top to bottom, or None |
| Day10Py1.FirstStartUnique | py/10/prog_1.py:20-27 | the start found is unique |
| Day10Py1.ConnectedMeansArmBack | py/10/prog_1.py:43-50 | a neighbour counts as connected exactly when it has an arm back to the start |
| Day10Py1.Connections | py/10/prog_1.py:42-50 | the connected sides in append order north, south, east, west |
| Day10Py1.StartChar | py/10/prog_1.py:51-64 | the char of the if-chain for each of its six lists, None for every other list |
| Day10Py1.StartAt | py/10/prog_1.py:36-68 | the start's char and its two connected sides, in order, when exactly two connect |
| Day10Py1.ConnectionsResolve | py/10/prog_1.py:51-64 | every two-side list that can be built is one of the six of the chain, in append order |
| Day10Py1.InitDataframes | py/10/prog_1.py:29-68 | distance 0 at the start, the start char resolved, distance 1 at both connected neighbours |
| Day10Py1.GetNextCoordinates | py/10/prog_1.py:70-124 | the move continues through the pipe when the last move is one it accepts, and raises otherwise |
| Day10Py1.NextCoordinatesMove | py/10/prog_1.py:70-124 | an accepted move came in by a unit step, leaves by one and never turns back |
| Day10Py1.SameTableAsRust | py/10/prog_1.py:70-124 | the Python move table agrees with `get_next_coords` of rust/d10_2 for every pipe char |
| Day10Py1.AgentStep | py/10/prog_1.py:141-152 | one agent's move, failing where Python raises |
| Day10Py1.DistAfterLabels | py/10/prog_1.py:145-152 | the distance writes keep the frame's labels |
| Day10Py1.Round | py/10/prog_1.py:139-156 | one loop round: both agents move and the new distance is written under each |
| Day10Py1.WalkAgents | py/10/prog_1.py:136-157 | the loop ends at the first round after which both agents share a tile and returns rounds + 1, or the first failure |
| Day10Py1.ProcessDataframes | py/10/prog_1.py:126-157 | `init_dataframes`, then both agents walk from the two neighbours of the start |
| Day07Rust2.GetCardFromChar | rust/d07_2/src/main.rs:28-37 | the card of the first variant written with the char, an error for any other char |
| Day07Rust2.CardRoundTrip | rust/d07_2/src/main.rs:24-37 | every known face is read back from its own character |
| Day07Rust2.BucketsComplete | rust/d07_2/src/main.rs:76-85 | every face some card shows has its bucket |
| Day07Rust2.TotalCounts | rust/d07_2/src/main.rs:76-85 | every card of a listed face is counted in exactly one bucket |
| Day07Rust2.CountBuckets | rust/d07_2/src/main.rs:73-85 | the first loop's buckets, its early break skipping only faces with no card |
| Day07Rust2.ScanBuckets | rust/d07_2/src/main.rs:87-110 | the largest non-joker bucket, ties to the stronger face, and the joker bucket |
| Day07Rust2.AddJokers | rust/d07_2/src/main.rs:115-119 | the jokers added to the bucket of the largest face only |
| Day07Rust2.Classify | rust/d07_2/src/main.rs:126-160 | the type from the number of buckets and the sizes, an error for other shapes |
| Day07Rust2.GetComboType | rust/d07_2/src/main.rs:72-161 | `get_combo_type`: with jokers, their bucket is removed and joins the largest other bucket |
| Day07Rust2.CountRule | rust/d07_2/src/main.rs:126-160 | the type of a proper bucket list of five cards from its length and its largest bucket |
| Day07Rust2.ComboFollowsRule | rust/d07_2/src/main.rs:72-161 | for five known cards, `get_combo_type` is the joker rule stated on the face counts |
| Day07Rust2.ComboDefined | rust/d07_2/src/main.rs:163-172 | a hand with a known card always gets a type, so `set_combo_type` never keeps Unknown |
| Day07Rust2.NewHand | rust/d07_2/src/main.rs:60-70 | rank 0 and the type `set_combo_type` sets |
| Day07Rust2.HandFollowsRule | rust/d07_2/src/main.rs:60-70 | a hand of known cards gets the joker rule's type |
| Day07Rust2.StrongerTotal | rust/d07_2/src/main.rs:176-199 | of two hands exactly one is stronger, unless types and cards are equal |
| Day07Rust2.StrongerTransitive | rust/d07_2/src/main.rs:176-199 | the strength order is transitive |
| Day07Rust2.JokerWeakest | rust/d07_2/src/main.rs:7-22 | J loses to every other known face |
| Day07Rust2.PartialCmp | rust/d07_2/src/main.rs:176-199 | Greater iff this hand is stronger, Less iff the other is, None iff equal |
| Day07Rust2.Cmp | rust/d07_2/src/main.rs:203-213 | the order of `partial_cmp`, Greater for equal hands |
| Day07Rust2.InsertAscending | rust/d07_2/src/main.rs:285 | inserting keeps the weakest-first order |
| Day07Rust2.SortHands | rust/d07_2/src/main.rs:285 | the sort is a permutation |
| Day07Rust2.SortAscending | rust/d07_2/src/main.rs:285 | the sorted hands are weakest first |
| Day07Rust2.RanksDistinct | rust/d07_2/src/main.rs:286-288 | the ranks are 1 to n, each used once |
| Day07Rust2.RanksFollowStrength | rust/d07_2/src/main.rs:284-289 | a stronger hand always holds the higher rank |
| Day07Rust2.ProcessHandsRank | rust/d07_2/src/main.rs:284-289 | the hands sorted, then ranked by place |
| Day07Rust2.WinningsOfRanks | rust/d07_2/src/main.rs:313-316 | the sum of bid times rank equals the sum, over places, of the bids from that place on |
| Day07Rust2.TotalWinnings | rust/d07_2/src/main.rs:313-316 | the loop of `main` computes the sum of bid times rank |
| Day07Rust2.FillSpec | rust/d07_2/src/main.rs:248-259 | a cards token of at most five cards replaces the first cards; a sixth is the out-of-bounds write, a bad char the error |
| Day07Rust2.TokensSpec | rust/d07_2/src/main.rs:246-279 | a line's hands come from its bid tokens, the n-th from token 2n + 1 |
| Day07Rust2.InputHands | rust/d07_2/src/main.rs:241-281 | each hand returned is `Hand::new` of its cards and bid |
| Day07Rust2.ReadLine | rust/d07_2/src/main.rs:243-279 | the token loop of one line gives the hands of TokensFrom (even tokens are cards, odd ones bids) or its first error; the loop keeps the `u8` counter below 256 and of the parity of the token index across its wrap from 255 to 0 |
| Day07Rust2.GetInput | rust/d07_2/src/main.rs:241-281 | the hands of every line in order, or the first error |
| Day07Py1.Value | 07/prog_1.py:6-12 | the type constants' values are 0 to 6 |
| Day07Py1.TypeOrderValues | 07/prog_1.py:148 | the iteration order lists the types by increasing value |
| Day07Py1.Power | 07/prog_1.py:13-25 | the powers are 1 to 13, None for an unmapped char |
| Day07Py1.PowerTable | 07/prog_1.py:13-25 | a char has a power iff it is a card, and the power is its place in 23456789TJQKA |
| Day07Py1.PowerInjective | 07/prog_1.py:13-25 | distinct cards have distinct powers |
| Day07Py1.TallySpec | 07/prog_1.py:68-79 | the dict's keys are the hand's cards, once each, counted by their occurrences, summing to the hand's length |
| Day07Py1.GetParsedHand | 07/prog_1.py:68-79 | the counting loop builds that dict, keys in first-seen order |
| Day07Py1.GetType | 07/prog_1.py:91-122 | the flag loop computes the type of the dict |
| Day07Py1.KindByCounts | 07/prog_1.py:91-122 | the type of a hand is the Camel Cards rule on its card counts |
| Day07Py1.GetComparableHand | 07/prog_1.py:81-88 | the base-100 value of the powers, or the KeyError of the first unmapped card |
| Day07Py1.PowerValueBound | 07/prog_1.py:81-88 | the value of n cards is below 100^n |
| Day07Py1.ComparableOrder | 07/prog_1.py:81-88 | for hands of one length, comparing values is comparing powers card by card, and equal values mean equal hands |
| Day07Py1.RankOrder | 07/prog_1.py:133-155 | ranks are within 1..n and distinct; a weaker type or, in one type, a lower value gives a lower rank; ties keep input order |
| Day07Py1.SortedBy | 07/prog_1.py:151 | `sorted` by key is a permutation |
| Day07Py1.SortedAscend | 07/prog_1.py:151 | the sorted bucket is ordered by value, ties in input order |
| Day07Py1.RankAt | 07/prog_1.py:150-154 | the p-th hand of the sorted bucket of type t gets rank 1 + (hands of weaker types) + p |
| Day07Py1.BucketRanks | 07/prog_1.py:148-154 | the bucket of type t is as long as the hands of type t, and their ranks follow those of every weaker type |
| Day07Py1.FilterSpec | 07/prog_1.py:145-146 | the positions of a bucket are exactly those of the hands of its type |
| Day07Py1.RicoHand.constructor | 07/prog_1.py:52-60 | hand and bid kept, rank None, the parsed hand, type and value computed |
| Day07Py1.NewRicoHand | 07/prog_1.py:52-60 | a new hand, or the KeyError of its first unmapped card |
| Day07Py1.FillBuckets | 07/prog_1.py:137-146 | bucket t holds the hands of type t in input order |
| Day07Py1.RankBucket | 07/prog_1.py:151-154 | the bucket's hands get consecutive ranks from `rank_value` in sorted order |
| Day07Py1.UpdateRanks | 07/prog_1.py:133-155 | every hand's rank is its place in the order by type, then value, then input position |
| Day07Py1.LineRoundTrip | 07/prog_1.py:34-42 | a line `hand bid` parses back to the hand and the bid |
| Day07Py1.CollectSpec | 07/prog_1.py:39-42 | a list of per-line outcomes collects exactly when every line parsed, into their values in order |
| Day07Py1.CollectPrefixErr | 07/prog_1.py:39-42 | once a line fails, the loop's result is that line's error whatever follows |
| Day07Py1.ParseInput | 07/prog_1.py:34-42 | the loop builds that list |
| Day07Py1.ProcessDataInput | 07/prog_1.py:124-131 | one RicoHand per entry, in order, or the first hand that fails |
| Day07Py1.TotalWinnings | 07/prog_1.py:164-166 | the loop sums bid times rank |
| Day07Py1.WinningsScore | 07/prog_1.py:158-166 | the answer is the sum of bid times the rank of the order |
| Day07Py1.Solve | 07/prog_1.py:158-166 | the whole script computes Answer |
| Text.Reverse | rust/d01_1/src/main.rs:31-37 | the chars of the input from the last to the first |
| Text.PyIntChar | 01/prog.py:13 | `int` of one char succeeds exactly for a decimal digit, with its value |
| Calibration.WordsShape | rust/d01_2/src/main.rs:109-118 | the ten words are lower-case and at least three letters long |
| Calibration.FirstDigit | py/01/prog_1.py:8-17 | the reference first digit is below 10 |
| Calibration.LastDigit | py/01/prog_1.py:25 | the reference last digit is below 10 |
| Calibration.FirstDigitNone | py/01/prog_1.py:8-17 | no first digit exactly when the line holds no digit |
| Calibration.LastDigitNone | c/d01/src/prog_2.c:36-51 | no last digit exactly when the line holds no digit |
| Calibration.FirstDigitIndex | py/01/prog_1.py:8-17 | the first digit is read at a digit preceded only by non-digits |
| Calibration.LastDigitIndex | c/d01/src/prog_2.c:36-51 | the last digit is read at a digit followed only by non-digits |
| Calibration.FirstOfReverse | rust/d01_1/src/main.rs:106 | the first digit of the reversed line is the last digit of the line |
| Calibration.ReverseTwice | rust/d01_1/src/main.rs:31-37 | reversing twice gives the line back |
| Calibration.Matched | rust/d01_2/src/main.rs:32-37 | the greedy count of matched letters never exceeds the word's length |
| Calibration.MatchedLongest | rust/d01_2/src/main.rs:32-37 | the greedy count is the longest prefix of the word that is a subsequence of the text |
| Calibration.MatchedAll | rust/d01_2/src/main.rs:39-41 | the buffer is full exactly when the word is a subsequence of the text scanned |
| Calibration.MatchedSkip | rust/d01_2/src/main.rs:35-37 | a char the word does not hold leaves the count unchanged |
| Day01Rust1.NumericAsChar | rust/d01_1/src/main.rs:45-47 | the char whose code is numeric + 0x30, for numerics that do not overflow the `u8` |
| Day01Rust1.NumericAsDigit | rust/d01_1/src/main.rs:45-47 | the chars of 0 .. 9 are the decimal digits of those values |
| Day01Rust1.CharIndex | rust/d01_1/src/main.rs:21-26 | the smallest index of a number whose char is c, None when there is none |
| Day01Rust1.CharIndexAt | rust/d01_1/src/main.rs:21-26 | a matching number preceded by none is the one found |
| Day01Rust1.StandardNumeral | rust/d01_1/src/main.rs:69-78 | with the numbers 0 to 9, the index found is the first digit of the line |
| Day01Rust1.GetFirstDigitInLine | rust/d01_1/src/main.rs:19-29 | the index of the first number matching the leftmost char that matches any |
| Day01Rust1.GetReversedString | rust/d01_1/src/main.rs:31-37 | the reversed string |
| Day01Rust1.DigitOf | rust/d01_1/src/main.rs:86-102 | the index when found and it fits a `u8`, 0 otherwise |
| Day01Rust1.Solve | rust/d01_1/src/main.rs:80-125 | the printed result is the digits-only calibration sum |
| Day01Rust2.Letters | rust/d01_2/src/main.rs:66-75 | the word, as long as the number's letters |
| Day01Rust2.LetterAt | rust/d01_2/src/main.rs:81-88 | the letter at an index below the word's length, None beyond it |
| Day01Rust2.HitAt | rust/d01_2/src/main.rs:26-45 | the smallest index whose char is line[p] or whose buffer fills at p |
| Day01Rust2.MatchedStep | rust/d01_2/src/main.rs:35-37 | a buffer grows by one letter exactly when the char is the next expected letter |
| Day01Rust2.CompletesAtSubseq | rust/d01_2/src/main.rs:39-41 | a word is recognised at p exactly when it first becomes a subsequence of the text read |
| Day01Rust2.HitFirst | rust/d01_2/src/main.rs:26-45 | the first number hit at p is the one returned |
| Day01Rust2.NoHit | rust/d01_2/src/main.rs:26-45 | no number hit at p, the scan goes on |
| Day01Rust2.Advance | rust/d01_2/src/main.rs:32-41 | one buffer update keeps the buffer at the greedy matched prefix and fills it exactly when the word completes |
| Day01Rust2.Full | rust/d01_2/src/main.rs:32-43 | a full buffer is left alone and does not complete again |
| Day01Rust2.GetFirstDigitInLine | rust/d01_2/src/main.rs:19-49 | the number hit at the first position where any is hit, digit or completed word |
| Day01Rust2.TryNumbers | rust/d01_2/src/main.rs:26-45 | the numbers in order against one char: the first hit, or every buffer updated |
| Day01Rust2.Solve | rust/d01_2/src/main.rs:120-166 | the printed result is the sum of 10 * left + right of the forward and reversed scans |
| Day01Rust2.HitBelowTen | rust/d01_2/src/main.rs:127-136 | the index found is below 10, so `try_into` always succeeds |
| Day01Rust2.FirstHitBound | rust/d01_2/src/main.rs:19-49 | the index found is an index of the list |
| Day01Rust2.ValidList | rust/d01_2/src/main.rs:109-118 | main's numerics do not overflow `get_numeric_as_char` |
| Day01Rust2.StandardNumbers | rust/d01_2/src/main.rs:109-118 | main's list gives number k the numeric k and a lower-case word of three letters or more |
| Day01Rust2.LettersLower | rust/d01_2/src/main.rs:66-75 | a reversed lower-case word is lower-case |
| Day01Rust2.MatchedNone | rust/d01_2/src/main.rs:32-37 | a text without letters matches no letter of a word |
| Day01Rust2.DigitHit | rust/d01_2/src/main.rs:27-29 | a digit is hit at once, by its own number |
| Day01Rust2.NothingHit | rust/d01_2/src/main.rs:26-45 | before any letter, a non-digit hits nothing |
| Day01Rust2.NoLettersFirstDigit | rust/d01_2/src/main.rs:19-49 | on a line without letters the scan finds the first digit |
| Day01Rust2.NoLettersTotal | rust/d01_2/src/main.rs:120-166 | on lines without letters, the spelled-digit answer is the digits-only answer |
| Day01Rust2.MatchedAtMost | rust/d01_2/src/main.rs:35-37 | a buffer holds no more letters than chars were read |
| Day01Rust2.NoLetterA | rust/d01_2/src/main.rs:109-118 | no word of main's list holds the letter 'a' |
| Day01Rust2.NotHitAbsent | rust/d01_2/src/main.rs:26-45 | a char that is no digit and no letter of the word does not hit it |
| Day01Rust2.NotHitEarly | rust/d01_2/src/main.rs:26-45 | no word is completed within the first two chars |
| Day01Rust2.ScatteredTail | rust/d01_2/src/main.rs:39-41 | at the last char of "twao" the word "two" is completed and "zero", "one" are not |
| Day01Rust2.ScatteredWord | rust/d01_2/src/main.rs:19-49 | the scan of "twao" answers 2, though "two" is not in the line |
| Day01Rust2.NumbersHead | rust/d01_2/src/main.rs:109-111 | main's list starts with zero, one, two and holds no 'a' |
| Day01Rust2.ScatteredIn | rust/d01_2/src/main.rs:19-49 | any such list finds "two" in "twao" |
| Day01Rust2.ScatteredHead | rust/d01_2/src/main.rs:19-49 | nothing is hit in "twa" |
| Day01Rust2.ScatteredLast | rust/d01_2/src/main.rs:19-49 | the 'o' of "twao" hits number 2 first |
| Day01Rust2.SpelledHitAt | rust/d01_2/src/main.rs:26-45 | corrected scan at p: the smallest index whose char is line[p] or whose word ends at p |
| Day01Rust2.SpelledFound | rust/d01_2/src/main.rs:19-49 | what the corrected scan finds is in the line: the number's char, or its word with adjacent letters |
| Day01Rust2.NoSuffixWith | rust/d01_2/src/main.rs:19-49 | a word that would cover a char it lacks does not end the text |
| Day01Rust2.ScatteredWordCorrected | rust/d01_2/src/main.rs:19-49 | the corrected scan finds nothing in "twao" |
| Day01Py.MapperShape | 01/prog.py:33-42 | `digit_mapper` pairs each word with its value, lower-case words of three letters or more |
| Day01Py.Key | 01/prog.py:19-22 | the key has the word's length |
| Day01Py.WordAtHit | 01/prog.py:23-28 | a key that passes the length test and starts the rest of the line is found |
| Day01Py.ProcessLine | 01/prog.py:8-31 | the scan with the program's length test: first digit char or word |
| Day01Py.TryWords | 01/prog.py:16-28 | the word loop sets `found_as_str` exactly when some key passes the test and matches, with its value |
| Day01Py.Solve | 01/prog.py:46-55 | the sum over the lines of 10 * x + y, None when some line raises |
| Day01Py.NoneStays | 01/prog.py:48-52 | once a line raises, the whole run raises |
| Day01Py.KeyStartsLower | 01/prog.py:19-22 | every key starts with a lower-case letter |
| Day01Py.WordAtNoLetter | 01/prog.py:16-28 | no key starts at a char that is no lower-case letter |
| Day01Py.NoLettersScan | 01/prog.py:8-31 | on a line without letters the scan finds the first digit |
| Day01Py.NoLettersTotal | 01/prog.py:46-55 | on lines without letters the run completes exactly when every line has a digit, with the digits-only answer |
| Day01Py.LineNoLetters | 01/prog.py:49-50 | on a line without letters the reversed scan finds the last digit |
| Day01Py.ReversedMatch | 01/prog.py:19-25 | in the reversed line, a reversed key matches exactly where the word itself sits in the line |
| Day01Py.SliceOfReverse | 01/prog.py:50 | a slice of the reversed line is the reversed mirror slice |
| Day01Py.ReverseInjective | 01/prog.py:20 | reversal is injective |
| Day01Py.TooCloseToEnd | 01/prog.py:23-24 | no word is read within three chars of the end |
| Day01Py.TwoAsWritten | 01/prog.py:23-24 | the line "two\n" raises: its reversed scan finds nothing |
| Day01Py.TwoIntended | 01/prog.py:23-24 | with the length test corrected the reversed line is read as 2 |
| Day01Py.NoKeyBefore | 01/prog.py:16-28 | in "\nowt" neither "zero" nor "one" is matched at position 1 |
| Day01Py1.ProcessLine | py/01/prog_1.py:8-17 | the first digit of the line, None exactly when it has none |
| Day01Py1.Solve | py/01/prog_1.py:23-31 | completes exactly when every line holds a digit, with the digits-only answer |
| Day01C.Init | c/d01/src/prog_2.c:10-16 | entry i is i |
| Day01C.CheckDigit | c/d01/src/prog_2.c:25-28 | a char's check value equals an entry of the list exactly for digits, and is then its value |
| Day01C.AsInt | c/d01/src/prog_2.c:19-33 | a found digit's value, -1 for none |
| Day01C.InList | c/d01/src/prog_2.c:25-30 | the inner loop finds an entry exactly for digits |
| Day01C.GetFromLeft | c/d01/src/prog_2.c:19-33 | the first digit of the first `size` chars, or -1 |
| Day01C.GetFromRight | c/d01/src/prog_2.c:36-51 | the last digit of the first `size` chars, or -1 |
| Day01C.Solve | c/d01/src/prog_2.c:53-95 | fails exactly when some line has no digit, and otherwise totals the digits-only answer |
| Day01Rust2.TryNumber | rust/d01_2/src/main.rs:26-43 | one number against one char: it wins exactly when it is hit, and otherwise its buffer tracks the greedy match one char further |
| Cubes.MostBound | rust/d02_01/src/main.rs:47-49 | every count a game shows of a colour is at most the most shown |
| Cubes.MostInBound | rust/d02_01/src/main.rs:43-83 | every count a draw shows of a colour is at most the draw's most |
| Cubes.MostAttained | rust/d02_01/src/main.rs:47-49 | a non-zero most-shown count is shown by some draw |
| Cubes.MostInAttained | rust/d02_01/src/main.rs:43-83 | a draw's non-zero most is shown by one of its colours |
| Cubes.PossibleIffFewest | rust/d02_01/src/main.rs:148-152 | a game is possible with a bag exactly when the bag holds at least the fewest cubes of every colour |
| Cubes.FewestIsLeast | rust/d02_2/src/main.rs:147-150 | the fewest cubes make the game possible, and a bag short of them in some colour does not |
| Cubes.LineChars | rust/d02_01/src/main.rs:29 | a char foreign to the record syntax appears nowhere in a record, so splitting on it keeps the line whole |
| Cubes.DrawsChars | rust/d02_01/src/main.rs:29 | the draws' part of a record holds no colon |
| Day02Rust.Raise | rust/d02_01/src/main.rs:47-49 | `if val > blue { blue = val }`: the colour becomes the larger of the two, the id and other colours are kept |
| Day02Rust.Count | rust/d02_01/src/main.rs:45 | the slice trimmed and parsed as a `u8`: a count that fits a `u8` |
| Day02Rust.IdOf | rust/d02_01/src/main.rs:31 | the text after "Game" trimmed and parsed as a `u32`: an id that fits a `u32` |
| Day02Rust.GetLineData | rust/d02_01/src/main.rs:23-88 | the loops over the colon, semicolon and comma pieces compute LineData, the first parse error ending the line |
| Day02Rust.TallyDraw | rust/d02_01/src/main.rs:43-83 | the comma loop of one draw, the pieces in order |
| Day02Rust.ColourOfShown | rust/d02_01/src/main.rs:44-70 | the colour tests in the order blue, red, green classify a colour's record by its own colour |
| Day02Rust.CountSlice | rust/d02_01/src/main.rs:45-71 | the slice between the leading space and the name (green keeping one more char) trims to the count's digits |
| Day02Rust.PieceShown | rust/d02_01/src/main.rs:44-82 | a colour's record raises that colour to its count when it fits a `u8`, and fails otherwise |
| Day02Rust.RaiseStep | rust/d02_01/src/main.rs:43-83 | raising by the first colour and then by the rest is raising by the whole draw |
| Day02Rust.RaisedStep | rust/d02_01/src/main.rs:42-84 | raising by the first draw and then by the rest is raising by all the draws |
| Day02Rust.TallyShown | rust/d02_01/src/main.rs:43-83 | a draw whose counts fit a `u8` raises every colour to the draw's most |
| Day02Rust.TallyShownFails | rust/d02_01/src/main.rs:51-54 | a draw with a count over 255 fails |
| Day02Rust.DrawPieces | rust/d02_01/src/main.rs:43 | a draw's record splits on ',' into its colours' records, an empty draw into one empty piece |
| Day02Rust.EmptyPiece | rust/d02_01/src/main.rs:43-83 | a piece naming no colour changes nothing |
| Day02Rust.TallyDrawTexts | rust/d02_01/src/main.rs:42-84 | the draws raise every colour to the game's most when all counts fit a `u8`, and fail otherwise |
| Day02Rust.RestRead | rust/d02_01/src/main.rs:41-85 | the text after the colon raises every colour to the game's most |
| Day02Rust.LineRoundTrip | rust/d02_01/src/main.rs:23-88 | a game's record whose id fits a `u32` and whose counts fit a `u8` is read as its id and the most cubes shown per colour |
| Day02Rust.HeadLine | rust/d02_01/src/main.rs:29-40 | a record is read as its head's id followed by its draws |
| Day02Rust.LineOfTwo | rust/d02_01/src/main.rs:29 | a line of two colon pieces is read piece by piece in order |
| Day02Rust.LineFails | rust/d02_01/src/main.rs:35-38 | a record whose id overflows a `u32` or whose counts overflow a `u8` fails |
| Day02Rust.SplitHead | rust/d02_01/src/main.rs:29 | a record splits on ':' into its head and its draws |
| Day02Rust.HeadSlice | rust/d02_01/src/main.rs:31 | the head after the four chars of "Game" trims to the id's digits |
| Day02Rust.HeadContains | rust/d02_01/src/main.rs:30 | the head contains "Game" |
| Day02Rust.HeadId | rust/d02_01/src/main.rs:30-39 | the head's id is read when it fits a `u32`, and fails otherwise |
| Day02Rust.HeadSegment | rust/d02_01/src/main.rs:30-39 | the head sets the id and nothing else, or fails |
| Day02Rust.TwoSegments | rust/d02_01/src/main.rs:29-86 | two colon pieces are read in order, the first error stopping the line |
| Day02Rust.ReadRest | rust/d02_01/src/main.rs:41-85 | the draws' part is read draw by draw, an empty one changing nothing |
| Day02Rust.EmptyLine | rust/d02_01/src/main.rs:23-88 | the empty line is read as the game with id 0 and no cubes |
| Day02Rust.GetInput | rust/d02_01/src/main.rs:107-127 | the loop over the newline pieces computes Input: every line's game in order, or the first line's error |
| Day02Rust.CollectAll | rust/d02_01/src/main.rs:110-120 | lines that all parse give all their games in order |
| Day02Rust.CollectStops | rust/d02_01/src/main.rs:115-118 | the first line that fails makes the input fail |
| Day02Rust.InputLines | rust/d02_01/src/main.rs:110 | the input splits on '\n' into the records' lines, with an empty last line after a final newline |
| Day02Rust.LinesRead | rust/d02_01/src/main.rs:110-120 | every line of a readable input parses to its expected game |
| Day02Rust.InputRoundTrip | rust/d02_01/src/main.rs:91-128 | a file of records whose ids and counts fit is read as the records' games, plus the game 0 of the empty last line |
| Day02Rust.FirstUnfitting | rust/d02_01/src/main.rs:110-120 | an unreadable input has a first record that does not fit |
| Day02Rust.InputFails | rust/d02_01/src/main.rs:115-118 | a file with a record whose id or counts overflow fails |
| Day02Rust1.Solve | rust/d02_01/src/main.rs:148-152 | main's loop adds the ids of the games within 12 red, 13 green and 14 blue |
| Day02Rust1.WithinIffPossible | rust/d02_01/src/main.rs:133-135 | main's test passes exactly when the game is possible with the puzzle's bag |
| Day02Rust1.IdSumExpected | rust/d02_01/src/main.rs:148-152 | the sum over the read games is the sum of the ids of the possible games |
| Day02Rust1.Answer | rust/d02_01/src/main.rs:130-154 | for a readable file the printed result is the sum of the ids of the games possible with the bag |
| Day02Rust2.PowerFits | rust/d02_2/src/main.rs:148 | the power of `u8` counts fits a `u32` |
| Day02Rust2.Solve | rust/d02_2/src/main.rs:147-150 | main's loop adds red * green * blue over the games |
| Day02Rust2.PowerSumExpected | rust/d02_2/src/main.rs:147-150 | the powers of the read games are the powers of the games' fewest cubes |
| Day02Rust2.Answer | rust/d02_2/src/main.rs:130-152 | for a readable file the printed result is the sum of the games' powers |
| Day02Py.Raise | py/02/prog.py:21-22 | `if dico[color] < n: dico[color] = n`: the colour becomes the larger, id and other colours kept |
| Day02Py.ParseInputLineToDict | py/02/prog.py:10-23 | the id, the three colours at 0, then the pull loop: computes LineDict, None where it raises |
| Day02Py.ParsePull | py/02/prog.py:17-22 | the piece loop of one pull, the pieces in order |
| Day02Py.ParsePiece | py/02/prog.py:18-22 | the colours in the order blue, red, green tested on one piece |
| Day02Py.ContainsName | py/02/prog.py:19 | a colour's record contains exactly its own colour's name |
| Day02Py.AmountShown | py/02/prog.py:20 | the text before the name, stripped, is read as the count |
| Day02Py.ColorsOnly | py/02/prog.py:18-22 | a piece naming one colour raises only that colour |
| Day02Py.PieceRead | py/02/prog.py:18-22 | a colour's record, maybe with the newline, raises its colour to its count |
| Day02Py.PiecesRead | py/02/prog.py:17-22 | a draw's pieces raise every colour to the draw's most |
| Day02Py.NoName | py/02/prog.py:19 | a bare newline changes nothing |
| Day02Py.DrawPieces | py/02/prog.py:17 | a draw's record, maybe with the newline, splits on ',' into its colours' records |
| Day02Py.PullRead | py/02/prog.py:17-22 | one draw's record raises every colour to the draw's most |
| Day02Py.PullsRead | py/02/prog.py:16-22 | the draws' records raise every colour to the game's most |
| Day02Py.RestRead | py/02/prog.py:16-22 | the text after the colon, maybe with the newline, raises every colour to the game's most |
| Day02Py.IdRead | py/02/prog.py:13 | the id after "Game " before the colon is read back |
| Day02Py.LineRoundTrip | py/02/prog.py:10-23 | a game's record, maybe with its newline, is read as its id and the most cubes shown per colour |
| Day02Py.LineSplit | py/02/prog.py:16 | a record splits on ':' into its head and its draws |
| Day02Py.BagDictList | py/02/prog.py:31-32 | the loop over the lines computes Dicts: every line's dict in order, None once one raises |
| Day02Py.GatherSpec | py/02/prog.py:31-32 | the gathering fails exactly when some line fails, and otherwise holds every line's dict in order |
| Day02Py.DictsSpec | py/02/prog.py:31-32 | the program raises exactly when some line does, and otherwise has one dict per line |
| Day02Py.Question2 | py/02/prog.py:46-48 | the loop adds red * green * blue over the dicts |
| Day02Py.PowerTotalExpected | py/02/prog.py:46-48 | the dicts' powers are the powers of the games' fewest cubes |
| Day02Py.Answer | py/02/prog.py:27-49 | the lines of a file of records are read as the games' fewest cubes, and the printed result is the sum of their powers |
| Schematic.Dots | rust/d03_2/src/main.rs:202 | a string of n dots |
| Schematic.Framed | rust/d03_2/src/main.rs:201-209 | a row of dots as long as the first line above and below the lines, and every row framed by two dots |
| Schematic.FramedEdges | rust/d03_2/src/main.rs:201-209 | every framed row starts and ends with a dot, and the outer rows are all dots |
| Schematic.FramedShape | rust/d03_2/src/main.rs:201-209 | for lines of equal length, every framed row is two chars longer and the outer rows are dots |
| Schematic.Pow10Grows | rust/d03_2/src/main.rs:319-327 | powers of ten grow strictly |
| Schematic.NbDigitsBounds | rust/d03_2/src/main.rs:319-327 | a value has n digits exactly when 10^(n-1) <= v < 10^n, and below 10 it has one |
| Schematic.DigitsBounds | rust/d03_2/src/main.rs:218-222 | a run of n digits has a value below 10^n, and at least 10^(n-1) without a leading zero |
| Schematic.DigitsLength | rust/d03_2/src/main.rs:226 | the decimal length of a run's value is at most the run's length, and equal to it without a leading zero |
| Schematic.DigitsPositive | rust/d03_2/src/main.rs:218-222 | a run of digits that does not start with '0' has a positive value |
| Schematic.NbDigitsStep | rust/d03_2/src/main.rs:221 | appending a digit to a positive value adds one decimal digit |
| Schematic.RunStart | rust/d03_2/src/main.rs:217-222 | the start of the run of digits ending before a column: all digits up to it, and no digit just before it |
| Schematic.RunValueStep | rust/d03_2/src/main.rs:218-222 | `number = 10 * number + val` on a digit; any other char ends the run |
| Schematic.RunEnds | rust/d03_2/src/main.rs:223-224 | the columns where a run of digits ends, in increasing order, and exactly those |
| Schematic.RunStop | py/03/prog_2.py:81-84 | the end of the run of digits from a column on: all digits before it, no digit at it |
| Schematic.StopAt | py/03/prog_2.py:81-84 | a run of digits followed by a non-digit stops there |
| Day03Rust2.RangeIntersectSpec | rust/d03_2/src/main.rs:10-12 | two non-empty inclusive ranges intersect exactly when they share a value, symmetrically |
| Day03Rust2.SurfaceIntersectSpec | rust/d03_2/src/main.rs:40-46 | two surfaces intersect exactly when they cover a common cell, symmetrically |
| Day03Rust2.GearTouches | rust/d03_2/src/main.rs:88-162 | a gear's 3x3 surface meets a number's surface exactly when some column of the number is at most one step from the gear, one line at most above or below |
| Day03Rust2.GetNbDigit | rust/d03_2/src/main.rs:319-327 | the loop dividing by ten counts the value's decimal digits |
| Day03Rust2.PartsOf | rust/d03_2/src/main.rs:223-256 | the numbers of a row each have a length and sit on that row |
| Day03Rust2.PartsOfRuns | rust/d03_2/src/main.rs:223-256 | a row's numbers are one per run of digits, at the run's end, in order |
| Day03Rust2.PartsOfRunsStep | rust/d03_2/src/main.rs:223-256 | one more run end adds its number to the row's numbers |
| Day03Rust2.GearsOfStars | rust/d03_2/src/main.rs:259-263 | the gears of a row are exactly its '*' chars |
| Day03Rust2.PartSpansRun | rust/d03_2/src/main.rs:226-253 | without a leading zero a number starts at its run's first column and is as long as its run |
| Day03Rust2.ScanStep | rust/d03_2/src/main.rs:217-263 | one char of the scan adds a number exactly at a run's end |
| Day03Rust2.ScanLine | rust/d03_2/src/main.rs:214-264 | the loop over a row computes its numbers and gears, and None where a slice falls off a neighbouring row and the program panics |
| Day03Rust2.AllParts | rust/d03_2/src/main.rs:214-265 | every number found sits on a line of the grid and has a length |
| Day03Rust2.AllGearsStars | rust/d03_2/src/main.rs:259-263 | every gear found is a '*' of the grid |
| Day03Rust2.GearsFramed | rust/d03_2/src/main.rs:201-263 | in a framed grid no gear is on the first row or column, so its surface starts inside |
| Day03Rust2.FrameLines | rust/d03_2/src/main.rs:201-209 | the loop builds the framed rows |
| Day03Rust2.GetInput | rust/d03_2/src/main.rs:165-273 | `get_input` computes the numbers and gears of the framed content, and None exactly where a slice panics |
| Day03Rust2.InputPlaced | rust/d03_2/src/main.rs:165-273 | the numbers of the input have a length and the gears are off the frame's edge |
| Day03Rust2.EmitSafe | rust/d03_2/src/main.rs:229-251 | in a framed grid of equal lines every read around a number is inside the grid |
| Day03Rust2.RectangularReads | rust/d03_2/src/main.rs:165-273 | content whose lines have equal length is always read |
| Day03Rust2.TrailingNewlinePanics | rust/d03_2/src/main.rs:187-251 | content ending with a newline has an empty last line, and the slice below a number on the line before reads past it: `get_input` fails |
| Day03Rust2.Touching | rust/d03_2/src/main.rs:299-307 | the parts kept for a gear are exactly those whose surface meets the gear's |
| Day03Rust2.TouchingSpec | rust/d03_2/src/main.rs:299-307 | the parts kept for a gear are exactly those with a column next to it |
| Day03Rust2.GearParts | rust/d03_2/src/main.rs:299-307 | the inner loop computes the touching parts, in order |
| Day03Rust2.GearRatio | rust/d03_2/src/main.rs:310-312 | a gear adds the product of its parts when exactly two touch it, else nothing |
| Day03Rust2.Solve | rust/d03_2/src/main.rs:293-315 | the outer loop sums the gears' ratios |
| Day03Rust2.Run | rust/d03_2/src/main.rs:276-317 | the printed result is the sum of the gear ratios of the input, and None (nothing printed) where `get_input` panics |
| Day03Rust1.CoverSpec | rust/d03_01/src/main.rs:93-98 | the f32 loop's count m from n on: 10^(m-1) < v <= 10^m |
| Day03Rust1.F32LenSpec | rust/d03_01/src/main.rs:93-98 | the count of the f32 loop is the least m with v <= 10^m |
| Day03Rust1.Pow10Mono | rust/d03_01/src/main.rs:93-98 | powers of ten grow with the exponent |
| Day03Rust1.F32LenDigits | rust/d03_01/src/main.rs:93-98 | on a value that is no power of ten the loop counts its decimal digits |
| Day03Rust1.F32LenPow | rust/d03_01/src/main.rs:93-98 | on 10^k the loop counts k where the value has k+1 digits |
| Day03Rust1.PowDigits | rust/d03_01/src/main.rs:93-98 | 10^k has k+1 decimal digits |
| Day03Rust1.F32LenAtMost | rust/d03_01/src/main.rs:93-98 | the loop never counts more than the value's digits |
| Day03Rust1.NumberLen | rust/d03_01/src/main.rs:93-98 | the loop computes the count F32Len defines |
| Day03Rust1.DigitLen | rust/d03_01/src/main.rs:93-98 | the corrected count, using `>=`, is the value's decimal length |
| Day03Rust1.NotDots | rust/d03_01/src/main.rs:18-19 | a string differs from as many dots exactly when it holds a char other than '.' |
| Day03Rust1.NewPartValid | rust/d03_01/src/main.rs:14-30 | `PartNumber::new` keeps its fields and is valid exactly when some side holds a char other than '.' |
| Day03Rust1.PartsOfRuns | rust/d03_01/src/main.rs:84-131 | a row's parts are one per run of digits, at the run's end, in order |
| Day03Rust1.PartsOfRunsStep | rust/d03_01/src/main.rs:84-131 | one more run end adds its part |
| Day03Rust1.ScanStep | rust/d03_01/src/main.rs:84-131 | one char of the scan adds a part exactly at a run's end |
| Day03Rust1.Emit | rust/d03_01/src/main.rs:91-128 | the part built at a run's end, None where a slice falls off a neighbouring row and the program panics |
| Day03Rust1.ScanLine | rust/d03_01/src/main.rs:81-131 | the loop over a row computes its parts, None where a slice panics |
| Day03Rust1.FrameLines | rust/d03_01/src/main.rs:68-76 | the loop builds the framed rows |
| Day03Rust1.GetInput | rust/d03_01/src/main.rs:33-140 | `get_input` computes the parts of the framed content, and None exactly where a slice panics |
| Day03Rust1.SumValid | rust/d03_01/src/main.rs:153-158 | the loop sums the values of the valid parts |
| Day03Rust1.Run | rust/d03_01/src/main.rs:142-160 | the printed result is the sum of the valid parts of the input, with the f32 length count, and None (nothing printed) where `get_input` panics |
| Day03Rust1.RectangularReads | rust/d03_01/src/main.rs:33-140 | content whose lines have equal length is always read |
| Day03Rust1.EmitSafe | rust/d03_01/src/main.rs:99-122 | in a framed grid of equal lines every read around a part is inside the grid |
| Day03Rust1.NeighbourValid | rust/d03_01/src/main.rs:14-122 | with the decimal length and no leading zero, a part is valid exactly when a cell around its run holds a char other than '.' |
| Day03Rust1.KeptChars | rust/d03_01/src/main.rs:99-122 | with the run's own length the four sides are the cells around the run |
| Day03Rust1.ValidWitness | rust/d03_01/src/main.rs:14-122 | a valid part has a non-'.' cell around its run |
| Day03Rust1.WitnessValid | rust/d03_01/src/main.rs:14-122 | a non-'.' cell around its run makes a part valid |
| Day03Rust1.PowerOfTenValid | rust/d03_01/src/main.rs:93-122 | as written, a run whose value is 10^k is always valid: its window is one column short, so its own first digit becomes `left` |
| Day03Rust1.FramedTen | rust/d03_01/src/main.rs:68-76 | the framed grid of the single line "10" |
| Day03Rust1.RunTen | rust/d03_01/src/main.rs:84-89 | the run ".10." read up to its end is 10, from column 1 |
| Day03Rust1.TenParts | rust/d03_01/src/main.rs:93-124 | in the framed "10" the part is valid as written and not valid with the decimal length |
| Day03Rust1.TenCounted | rust/d03_01/src/main.rs:93-124 | the lone number 10 is counted as written, though nothing but dots surrounds it |
| Day03Py.LoadInput | 03/prog.py:4-9 | every line of the file, stripped |
| Day03Py.ScanFromRaised | 03/prog.py:29-85 | once a line's scan raises, it raises on every longer prefix |
| Day03Py.ScanLinesRaised | 03/prog.py:24-85 | once the scan raises, it raises on every later line |
| Day03Py.ParseSurroundingsLines | 03/prog.py:11-86 | the nested loops compute the dicts Parse defines, None when they raise |
| Day03Py.OpenStep | 03/prog.py:32-42 | a digit extends the open dict's value, or opens a dict at its column with the next id |
| Day03Py.LineChar | 03/prog.py:29-85 | one char of a line: the dicts Step defines, the open dict and the id kept in step, and `last_char_was_int` whether the char is a digit away from the line's end |
| Day03Py.DigitChar | 03/prog.py:30-56 | a digit: the `try` path of LineChar |
| Day03Py.LineEnd | 03/prog.py:43-57 | the last digit of a line emits its dict inside the `try`, or an IndexError falls through to the `except` |
| Day03Py.Heads | 03/prog.py:36-41 | the first columns of the runs of digits, in increasing order, and exactly those |
| Day03Py.HeadLast | 03/prog.py:36-41 | the last head before a digit is the start of the run it ends |
| Day03Py.OpenedValue | 03/prog.py:32-42 | the dict's value at a run's end is its run's value |
| Day03Py.SurroundKeeps | 03/prog.py:43-84 | an emitted dict has its run's value, line, first column and its id |
| Day03Py.RunDictsAppend | 03/prog.py:56-83 | one more dict for the next head keeps the dicts in step with the heads |
| Day03Py.RunDictsGrow | 03/prog.py:56-83 | more heads keep the dicts in step |
| Day03Py.EmitHead | 03/prog.py:43-84 | at an emit the heads grow by at most this column, and the last is the emitted run's start |
| Day03Py.EmitRuns | 03/prog.py:43-84 | an emit keeps the dicts one per head of the line so far |
| Day03Py.ScanFromRuns | 03/prog.py:29-85 | the dicts of a line are one per run of digits, in order, with its value and first column |
| Day03Py.LineHeads | 03/prog.py:36-41 | the positions of a line's heads sit on that line |
| Day03Py.AllHeads | 03/prog.py:24-41 | the positions of all heads sit on heads |
| Day03Py.DescribesLine | 03/prog.py:24-85 | one more line's dicts extend the description by that line's heads |
| Day03Py.ScanLinesRuns | 03/prog.py:24-85 | the dicts of the lines so far are one per run of digits, in reading order, with running ids |
| Day03Py.LineHeadsSpec | 03/prog.py:36-41 | a line's keys are exactly its heads, by column |
| Day03Py.AllHeadsSpec | 03/prog.py:24-41 | the keys are exactly the heads of the schematic, by line then by column |
| Day03Py.ParseDicts | 03/prog.py:11-86 | when it does not raise, `parse_surroundings_lines` returns one dict per number in reading order, with ids 0, 1, 2, ... |
| Day03Py.SurroundRaises | 03/prog.py:47-83 | emitting raises exactly when there is a single line |
| Day03Py.ScanFromNone | 03/prog.py:29-85 | a line's scan raises exactly when there is one line and some column emits |
| Day03Py.EmitAfter | 03/prog.py:43-59 | after a digit some column of the line emits |
| Day03Py.EmitsIffDigit | 03/prog.py:43-59 | a line emits somewhere exactly when it holds a digit |
| Day03Py.ScanLinesNone | 03/prog.py:24-85 | the scan raises exactly on a single line that emits |
| Day03Py.ParseRaises | 03/prog.py:11-86 | `parse_surroundings_lines` raises exactly on a single line holding a digit |
| Day03Py.EdgeDots | 03/prog.py:45-74 | a number ending its line gets '.' on its right; on the first line `top` and on the last `bot` are all dots |
| Day03Py.StartLeft | 03/prog.py:63-79 | a number at column 0 gets '.' on its left, and inner lines give '.'-led `top` and `bot` |
| Day03Py.Window | 03/prog.py:69-82 | the cells from one column before a run to one after, dots off the grid |
| Day03Py.Intended | 03/prog.py:43-84 | the corrected dict keeps the value, line, column and id |
| Day03Py.SurroundFixedStars | 03/prog.py:43-84 | the corrected dict shows a '*' exactly when one is next to the number |
| Day03Py.StarsFound | 03/prog.py:43-84 | a '*' next to the number is in the corrected dict |
| Day03Py.StarsShown | 03/prog.py:43-84 | a '*' in the corrected dict is next to the number |
| Day03Py.WindowSlice | 03/prog.py:81-82 | inside the grid a window is the slice around the run, dot-led at column 0 |
| Day03Py.WindowDots | 03/prog.py:71-74 | off the grid a window is all dots |
| Day03Py.MidAsIntended | 03/prog.py:57-84 | a number ended by a non-digit, without a leading zero and not at column 0 of an outer line, gets exactly the corrected dict |
| Day03Py.MidFields | 03/prog.py:62-82 | the fields set in the `except` are the corrected ones away from the case of column 0 on an outer line |
| Day03Py.EndShiftMissesStar | 03/prog.py:49-55 | as written, in ["....", "...1", "...*"] the '*' below the 1 is not in its dict, and it is in the corrected one |
| Day03Py.EdgeColumnMissesStar | 03/prog.py:70-72 | as written, in ["1.", "*."] the '*' below the 1 is not in its dict, and it is in the corrected one |
| Day03Py.WithStar | 03/prog.py:110-113 | at most as many dicts as given |
| Day03Py.WithStarSpec | 03/prog.py:110-113 | the kept dicts are exactly those showing a '*' |
| Day03Py.WithStarOrigin | 03/prog.py:110-113 | the a-th kept dict stands at position a or later in the input |
| Day03Py.WithStarOrder | 03/prog.py:110-113 | keeping the dicts with a '*' keeps ids increasing |
| Day03Py.SelectStars | 03/prog.py:110-113 | the loop computes the dicts with a '*', in order |
| Day03Py.OnLine | 03/prog.py:116-122 | the dicts of a line, exactly those |
| Day03Py.OnLineAppend | 03/prog.py:116-122 | one more dict joins its own line's list only |
| Day03Py.LinesOfAppend | 03/prog.py:116-122 | one more dict adds its line to the keys |
| Day03Py.GroupedStep | 03/prog.py:117-122 | one turn of the grouping loop keeps the map grouped |
| Day03Py.GroupByLine | 03/prog.py:116-122 | the keys are the lines of the dicts and each holds that line's dicts in order, never empty |
| Day03Py2.IntOfValue | py/03/prog_2.py:109-126 | a piece adds its value when `int()` accepts it, else nothing |
| Day03Py2.ScanFromRaised | py/03/prog_2.py:29-128 | once a line's scan raises, it raises on every longer prefix |
| Day03Py2.ScanLinesRaised | py/03/prog_2.py:25-128 | once the scan raises, it raises on every later line |
| Day03Py2.ParsedStep | py/03/prog_2.py:117-121 | one more piece adds its value when `int()` accepts it |
| Day03Py2.ParsedOne | py/03/prog_2.py:109-116 | a lone string gives its value when `int()` accepts it |
| Day03Py2.CollectNumbers | py/03/prog_2.py:108-126 | the numbers of a dict: `right`, `left`, then the pieces of `bot` and `top` that `int()` accepts |
| Day03Py2.ParseEach | py/03/prog_2.py:117-126 | one `split(".")` loop appends exactly the values of the pieces `int()` accepts |
| Day03Py2.EachStep | py/03/prog_2.py:117-121 | one turn of that loop keeps its invariant |
| Day03Py2.StarDict | py/03/prog_2.py:32-127 | the body for a '*' computes its dict, None when it raises |
| Day03Py2.ParseSurroundingsLines | py/03/prog_2.py:11-129 | the nested loops compute the dicts Parse defines, None when they raise |
| Day03Py2.SumRatios | py/03/prog_2.py:141-144 | the loop sums the products of the stars with exactly two numbers |
| Day03Py2.Run | py/03/prog_2.py:133-145 | from the stripped lines, the printed result or None when the program raises |
| Day03Py2.StarCols | py/03/prog_2.py:29-31 | the columns of a line's '*' chars, in increasing order, and exactly those |
| Day03Py2.LineDictsStep | py/03/prog_2.py:31-127 | one more '*' appends its dict at its position |
| Day03Py2.StarAtKeeps | py/03/prog_2.py:32-34 | a star's dict has its line, its column and its id |
| Day03Py2.ScanFromStars | py/03/prog_2.py:29-128 | the dicts of a line are one per '*', in order |
| Day03Py2.LineStars | py/03/prog_2.py:29-31 | the positions of a line's stars are stars of that line |
| Day03Py2.AllStars | py/03/prog_2.py:25-31 | the positions of all stars are stars |
| Day03Py2.DescribesLine | py/03/prog_2.py:25-128 | one more line's dicts extend the description by that line's stars |
| Day03Py2.ScanLinesStars | py/03/prog_2.py:25-128 | the dicts of the lines so far are one per '*', in reading order, with running ids |
| Day03Py2.LineStarsSpec | py/03/prog_2.py:29-31 | a line's keys are exactly its stars, by column |
| Day03Py2.AllStarsSpec | py/03/prog_2.py:25-31 | the keys are exactly the stars of the schematic, by line then by column |
| Day03Py2.AllStarsMembers | py/03/prog_2.py:25-31 | the keys are exactly the stars |
| Day03Py2.AllStarsOrdered | py/03/prog_2.py:25-31 | the keys come by line, then by column |
| Day03Py2.ParseStars | py/03/prog_2.py:11-129 | when it does not raise, `parse_surroundings_lines` returns one dict per '*', in reading order, with ids 0, 1, 2, ... |
| Day03Py2.DotsStay | py/03/prog_2.py:86-106 | a row of dots is not extended |
| Day03Py2.StarEdges | py/03/prog_2.py:36-71 | a star in the last column gets '.' on its right, one in column 0 on its left; `top` is "..." on the first line and `bot` on the last |
| Day03Py2.Lo | py/03/prog_2.py:74-78 | where the run of digits ending just left of the star is cut: at most three columns back |
| Day03Py2.Hi | py/03/prog_2.py:80-84 | where the run of digits starting just right of the star is cut: at most three columns on |
| Day03Py2.AppendSpec | py/03/prog_2.py:80-90 | extending at the right adds the run's digits past column c+1, up to column c+3 |
| Day03Py2.StartAt | py/03/prog_2.py:74-78 | a run of digits preceded by a non-digit starts there |
| Day03Py2.LoCases | py/03/prog_2.py:74-78 | the cut column is c-1, c-2 or c-3 as the digits before the star go |
| Day03Py2.PrependSpec | py/03/prog_2.py:74-95 | with three columns to its left, extending at the left adds the run's digits before column c-1, down to column c-3 |
| Day03Py2.GrowRowSpec | py/03/prog_2.py:85-106 | inside the grid, `top` and `bot` become the cells above and below with the runs at their ends followed, three columns from the star at most |
| Day03Py2.GrowLeft | py/03/prog_2.py:74-78 | inside the grid, `left` becomes the run ending at it, three chars at most |
| Day03Py2.GrowRight | py/03/prog_2.py:80-84 | inside the grid, `right` becomes the run starting at it, three chars at most |
| Day03Py2.InteriorSides | py/03/prog_2.py:36-106 | away from the edges a star's four strings are the cells around it with each run that touches them followed outward, three columns at most |
| Day03Py2.PrependFixedSpec | py/03/prog_2.py:74-78 | the corrected extension at the left adds the run's digits before column c-1, down to column c-3, on every column |
| Day03Py2.PrependAgrees | py/03/prog_2.py:74-78 | from column 3 on the program's extension is the corrected one |
| Day03Py2.WrapMisreadsLeft | py/03/prog_2.py:74-78 | as written, in ["1*.5", "...."] the star's `left` is "51" and its first number 51, where the corrected extension keeps "1" |
| Day03Py2.NumbersFront | py/03/prog_2.py:108-116 | a dict's numbers start with those of `right`, then `left` |
| Day03Py2.RightEdgeRaises | py/03/prog_2.py:80-81 | a digit right of a star one column before its line's end raises IndexError |
| Scratchcards.MatchesBound | rust/d04_1/src/main.rs:176-189 | a card has no more matches than winning numbers |
| Scratchcards.DistinctMatches | rust/d04_1/src/main.rs:176-189 | a list without repeats of exactly the values on both lists has as many elements as the card has matches |
| Scratchcards.HitsDistinct | py/04/prog.py:48-51 | without a repeated drawn number, counting every drawn winning number gives the distinct matches |
| Scratchcards.TotalAtLeast | rust/d04_2/src/main.rs:145-147 | with every card dealt once the table holds at least one instance of each card |
| Scratchcards.SumOfInstances | rust/d04_2/src/main.rs:145-147 | a table whose cards hold their instances sums to the total of the instances |
| Scratchcards.NumbersWords | rust/d04_1/src/main.rs:64 | `split_whitespace` of a list of numbers as the puzzle spaces it gives their decimal texts |
| Scratchcards.DecimalTrim | rust/d04_1/src/main.rs:66 | `trim` leaves a decimal text as it is |
| Scratchcards.LineSegments | rust/d04_1/src/main.rs:45 | the segments of a card line around ':' are its head and its body |
| Scratchcards.BodyPieces | rust/d04_1/src/main.rs:47-61 | the body holds no "Card", and its pieces around '|' are the two lists of numbers |
| Day04Rust.NewCard | rust/d04_1/src/main.rs:246-267 | Ok exactly for ten winning and 25 card numbers, with the card; otherwise the error of the first vector that does not convert |
| Day04Rust.ReadTokens | rust/d04_1/src/main.rs:64-75 | the tokens' values pushed in order, or the side's error at the first token that is no `u8` |
| Day04Rust.ReadSegment | rust/d04_1/src/main.rs:47-95 | a segment with "Card" sets the id or fails, any other has its pieces read |
| Day04Rust.ReadPieces | rust/d04_1/src/main.rs:60-94 | the pieces alternate between winning and card numbers, from winning numbers on |
| Day04Rust.NextCounter | rust/d04_1/src/main.rs:90-93 | the `u8` counter stays below 0xFF and changes parity at every piece, the reset to 1 included |
| Day04Rust.ReadPiece | rust/d04_1/src/main.rs:63-89 | an even piece extends the winning numbers, an odd one the card numbers |
| Day04Rust.GetLine | rust/d04_1/src/main.rs:41-108 | the card of one line, or the first error met on it |
| Day04Rust.GetInput | rust/d04_1/src/main.rs:38-111 | the cards of the lines in order, or the error of the first line that fails |
| Day04Rust.Intersection | rust/d04_1/src/main.rs:176-189 | the values on both lists, each once |
| Day04Rust.AmountMatches | rust/d04_2/src/main.rs:169-171 | the card's number of matches, at most its number of winning numbers |
| Day04Rust.ShlPow | rust/d04_1/src/main.rs:169 | `score << 1` of a power of two wrapped to `usize` is the next power wrapped |
| Day04Rust.GetScore | rust/d04_1/src/main.rs:162-173 | the points of the card modulo 2^64, and its points outright with at most ten winning numbers |
| Day04Rust.Pow2Small | rust/d04_1/src/main.rs:7 | with ten winning numbers a score is at most 512 |
| Day04Rust.CollectSized | rust/d04_1/src/main.rs:100-109 | the cards collected from lines whose cards have the sizes keep those sizes |
| Day04Rust.InputCounts | rust/d04_1/src/main.rs:246-267 | every card of a successful `get_input` has ten winning and 25 card numbers |
| Day04Rust.EmptyLine | rust/d04_1/src/main.rs:248-254 | an empty line has no winning numbers and fails to convert |
| Day04Rust.TrailingNewline | rust/d04_1/src/main.rs:40 | content ending with a newline has an empty last line and `get_input` fails |
| Day04Rust.ValuesDecimals | rust/d04_1/src/main.rs:66 | decimal texts read back as their values where these fit in a `u8`, and fail past it |
| Day04Rust.PushBytewise | rust/d04_1/src/main.rs:64-75 | values that all fit in a `u8` are pushed in order, otherwise the side's error |
| Day04Rust.PushDecimals | rust/d04_1/src/main.rs:64-75 | the decimal texts of values are pushed in order when all fit in a `u8`, otherwise the side's error |
| Day04Rust.HeadId | rust/d04_1/src/main.rs:47-56 | the head of a card line sets its id, or fails past the `usize` range |
| Day04Rust.HeadText | rust/d04_1/src/main.rs:47-48 | the head contains "Card", and without "Card " and trimmed it is the id's decimal text |
| Day04Rust.BodyFields | rust/d04_1/src/main.rs:59-95 | the body adds both lists, or fails at the first side holding a value past a `u8` |
| Day04Rust.LineRoundTrip | rust/d04_1/src/main.rs:40-109 | a card line gives its card, or the first failure in the order id, winning numbers, card numbers, sizes |
| Day04Rust.ReadsTable | rust/d04_1/src/main.rs:40-109 | the lines of a table `get_card` accepts give their cards |
| Day04Rust.CollectAll | rust/d04_1/src/main.rs:109-111 | cards that all succeed are collected in order |
| Day04Rust.InputRoundTrip | rust/d04_1/src/main.rs:11-112 | the text of a table `get_card` accepts, without a trailing newline, is read back card by card |
| Day04Rust.TableSplit | rust/d04_1/src/main.rs:40 | the lines of a table's text are its card lines |
| Day04Rust1.Solve | rust/d04_1/src/main.rs:139-141 | the sum of the cards' scores as `get_score` computes them |
| Day04Rust1.ScoreSumPoints | rust/d04_1/src/main.rs:162-173 | with at most ten winning numbers per card no score wraps, and the sum is the sum of the points |
| Day04Rust1.Run | rust/d04_1/src/main.rs:115-148 | main prints the sum of the scores, or 0 when `get_input` fails |
| Day04Rust1.AnswerPoints | rust/d04_1/src/main.rs:136-148 | after a successful parse main prints the puzzle's sum of points |
| Day04Rust1.TableAnswer | rust/d04_1/src/main.rs:115-148 | for a table `get_card` accepts main prints the sum of the cards' points |
| Day04Rust1.TrailingAnswer | rust/d04_1/src/main.rs:40 | after a trailing newline main prints 0 |
| Day04Rust2.Deal | rust/d04_2/src/main.rs:278-280 | every card read starts with one instance |
| Day04Rust2.CopyCards | rust/d04_2/src/main.rs:138-144 | the copy loop leaves the vector as the cards processed one by one, in place |
| Day04Rust2.Solve | rust/d04_2/src/main.rs:137-147 | the sum of the amounts once every card handed on its copies |
| Day04Rust2.Run | rust/d04_2/src/main.rs:107-156 | main prints the sum of the amounts, or 0 when `get_input` fails |
| Day04Rust2.CreditFrame | rust/d04_2/src/main.rs:141-143 | the inner loop changes only the cards of the run, never a card's numbers, and lowers no amount |
| Day04Rust2.CreditAdds | rust/d04_2/src/main.rs:141-143 | when the credited card is before its run, every card of the run gains exactly its amount |
| Day04Rust2.ProcessedGrows | rust/d04_2/src/main.rs:139-144 | processing a card changes no card's numbers and lowers no amount |
| Day04Rust2.ProcessedCards | rust/d04_2/src/main.rs:139-144 | the cards' numbers stay those dealt |
| Day04Rust2.OnlyLater | rust/d04_2/src/main.rs:141 | with ids 1, 2, ... processing card p changes no card up to p |
| Day04Rust2.ProcessedSettled | rust/d04_2/src/main.rs:139-144 | after p cards every card holds its own amount and the copies won by the processed cards before it |
| Day04Rust2.RunOf | rust/d04_2/src/main.rs:141 | with ids 1, 2, ... card p's run ends its matches after it, or at the end of the table |
| Day04Rust2.OwnAmount | rust/d04_2/src/main.rs:139-142 | when its turn comes a card holds its instances |
| Day04Rust2.ProcessedNext | rust/d04_2/src/main.rs:139-144 | processing card p credits the cards p + 1 .. p + matches that exist |
| Day04Rust2.RunCredit | rust/d04_2/src/main.rs:141-143 | a later card gains card p's amount exactly when it is in p's run |
| Day04Rust2.NextAt | rust/d04_2/src/main.rs:139-144 | processing card p adds its amount to the later cards of its run and nothing to the others |
| Day04Rust2.StepLater | rust/d04_2/src/main.rs:139-144 | processing card p adds its instances to the inflow of every later card of its run |
| Day04Rust2.StepEarlier | rust/d04_2/src/main.rs:139-144 | processing card p leaves the cards up to it settled |
| Day04Rust2.SettledStep | rust/d04_2/src/main.rs:139-144 | processing one more card keeps every card settled |
| Day04Rust2.AmountFinal | rust/d04_2/src/main.rs:139-144 | with ids 1, 2, ... a card's amount is its instances once the cards before it are processed |
| Day04Rust2.SumInstances | rust/d04_2/src/main.rs:145-147 | the sum of the final amounts is the total of the instances |
| Day04Rust2.DealNumbered | rust/d04_2/src/main.rs:259-281 | cards read from lines numbered 1, 2, ... carry that numbering, one instance each and the table's matches |
| Day04Rust2.SolvedInstances | rust/d04_2/src/main.rs:137-147 | with ids 1, 2, ... the copies and the sum give the total of the instances |
| Day04Rust2.ParsedAnswer | rust/d04_2/src/main.rs:136-155 | after a parse with ids 1, 2, ... main prints the total of the instances |
| Day04Rust2.TableAnswer | rust/d04_2/src/main.rs:107-156 | for a numbered table `get_card` accepts main prints the puzzle's total of instances |
| Day04Rust2.TrailingAnswer | rust/d04_2/src/main.rs:107-156 | after a trailing newline main prints 0 |
| Wrappers.Gathered | py/04/prog.py:16-29 | the values exactly when no element raised, in order |
| Day04Py.Filled | py/04/prog.py:20-21 | the comprehension keeps exactly the pieces that are not empty |
| Day04Py.ReadInts | py/04/prog.py:22-25 | every word replaced by its int, or the raise of the first `int` that refuses |
| Day04Py.ParseLine | py/04/prog.py:18-28 | one line's dict, or the raise of its first failing step |
| Day04Py.ParseData | py/04/prog.py:11-29 | one dict per line in order, or the raise of the first failing line |
| Day04Py.ComputeScore | py/04/prog.py:31-42 | each card's score is the points of its hits |
| Day04Py.ComputeCopies | py/04/prog.py:44-59 | the list, updated in place, holds every card's hits as matches and its instances as copies |
| Day04Py.CountMatches | py/04/prog.py:48-51 | every dict's matches gain the number of its drawn numbers that are winning ones |
| Day04Py.RaiseRun | py/04/prog.py:58-59 | one more copy for each card of the run, the others unchanged |
| Day04Py.HandedOn | py/04/prog.py:55-59 | card d's instances handed to its run settle the cards up to d + 1 |
| Day04Py.OwnCopies | py/04/prog.py:55-57 | when its turn comes a card holds its instances and its counted matches |
| Day04Py.AddCopies | py/04/prog.py:57-59 | one pass of the outer loop settles one more card |
| Day04Py.Run | py/04/prog.py:61-80 | the program prints the sum of the copies, or raises |
| Day04Py.CopiesSum | py/04/prog.py:76-80 | the sum of the copies once `compute_copies` is done |
| Day04Py.ParsedFresh | py/04/prog.py:26-27 | every dict starts with no matches and one copy |
| Day04Py.CopiedTotal | py/04/prog.py:44-80 | from fresh dicts, the printed sum is the total of the instances, a card's matches being its hits |
| Day04Py.CountedFresh | py/04/prog.py:48-51 | counting fresh dicts leaves one copy each and their hits as matches |
| Day04Py.AnswerInstances | py/04/prog.py:61-80 | when the lines parse, the program prints the total of the instances |
| Day04Py.BlankRaises | py/04/prog.py:19 | a blank line of the file makes `split("Card")[1]` raise |
| Day04Py.SpacesWords | py/04/prog.py:20-21 | leading spaces add only empty pieces, which the filter drops |
| Day04Py.WordWords | py/04/prog.py:20-21 | a word and a space are the first piece kept |
| Day04Py.LastWord | py/04/prog.py:20-21 | a word alone is the only piece kept |
| Day04Py.WordsSpread | py/04/prog.py:20-21 | words spread over runs of spaces come back as the words |
| Day04Py.SpreadTail | py/04/prog.py:20-21 | after the first word and a space the other words are spread over the gaps left |
| Day04Py.IntOfDecimal | py/04/prog.py:23 | `int` of the decimal text of a value is the value |
| Day04Py.NumbersInts | py/04/prog.py:20-25 | a list of numbers as the puzzle spaces it parses back to the numbers |
| Day04Py.HeadNames | py/04/prog.py:19 | the head split on "Card" is nothing, then the padded id |
| Day04Py.PaddedId | py/04/prog.py:19 | the padded id reads back as the id |
| Day04Py.LineRoundTrip | py/04/prog.py:18-28 | a card line parses to its id and numbers, no matches and one copy |
| Day04Py.TightLine | py/04/prog.py:8 | `strip()` of a card line with its newline drops the spaces after its last number |
| Day04Py.TightSplit | py/04/prog.py:8 | a card line is its form without trailing spaces followed by them |
| Day04Py.LineEnds | py/04/prog.py:8 | a card line without trailing spaces starts and ends with no whitespace |
| Day04Py.ParseTable | py/04/prog.py:4-29 | the file of a table of cards loads and parses to the table's cards, fresh |
| Day04Py.TableAnswer | py/04/prog.py:61-80 | for the file of a table of cards the program prints the total of the instances, a card winning as many cards as it has hits |
| Day04Py.HitsAgree | py/04/prog.py:48-51 | without repeated drawn numbers the hits are the puzzle's matches |
| Almanac.ConvertUncovered | 05/prog_1.py:136 | a number no rule covers is sent to itself |
| Almanac.ConvertFirst | 05/prog_1.py:132-135 | a number is sent by the first rule whose source interval holds it, to that rule's destination start plus the number's offset |
| Almanac.DisjointConsistent | 05/prog_1.py:132-135 | rules whose source intervals do not overlap agree on every number two of them cover |
| Almanac.ConvertMember | 05/prog_1.py:132-135 | with rules that agree where they overlap, any rule covering a number gives the number's image, not only the first |
| Almanac.SameRules | 05/prog_1.py:84-85 | such rules, taken in another order, convert every number alike |
| Almanac.ThroughLast | 05/prog_1.py:145-148 | sending a number through one more map converts its image under the maps before by that map |
| Almanac.Least | 05/prog_1.py:155-160 | the least of a non-empty list is one of its values and at most each of them |
| Day05Py.VectorOf | 05/prog_1.py:102 | a rule's vector dict has a source and a destination range of the same length |
| Day05Py.Present | 05/prog_1.py:122-126 | the maps kept are at most one per name, each the rules of a key that exists |
| Day05Py.At | py/05/prog_2.py:201 | indexing a range gives a value exactly when the index lies in [-len, len), negative indices counting from the end |
| Day05Py.ReadBlockLine | 05/prog_1.py:39-47 | a line is classified as the block loop reads it: blank, containing the map's header, or a rule line with its three integers (None when it is not three integers) |
| Day05Py.BlockLine | 05/prog_1.py:38-48 | one step of the block loop either ends with the block's result or leaves the result of the rest of the scan unchanged |
| Day05Py.ScanBlock | 05/prog_1.py:38-48 | the inner loop from `offset` gives the block's rules (None where the map's key is missing) and where the next block starts, or None where a line raises |
| Day05Py.BlockRules | 05/prog_1.py:45-48 | rule lines after the header are appended to the map's rules in their order |
| Day05Py.BlockLaidOut | 05/prog_1.py:39-48 | a header, its rule lines and a blank line give exactly those rules, and the next block starts after the blank line |
| Day05Py.RuleBeforeHeader | 05/prog_1.py:45-48 | a rule line before the map's header fails, as appending to the missing key raises a KeyError |
| Day05Py.MapsNone | 05/prog_1.py:36-48 | once a block fails, the whole scan fails |
| Day05Py.ReadMaps | 05/prog_1.py:36-48 | the loop over the seven map names gives the scan's maps, one per name, or None where it raises |
| Day05Py.Place | 05/prog_1.py:107-114 | the insertion point: every vector before it starts below the rule's source start, the one at it does not |
| Day05Py.InsertedAscending | 05/prog_1.py:107-114 | inserting a vector at its place in a list ascending by source start keeps the list ascending |
| Day05Py.InsertedMultiset | 05/prog_1.py:107-114 | the insertion adds exactly the new vector and loses none |
| Day05Py.InsertRule | 05/prog_1.py:99-116 | `process_a_mapping_rule` inserts the rule's vector at its place and returns -1 on an empty list, else the index where the loop stopped |
| Day05Py.PlaceAfter | 05/prog_1.py:107-114 | any position with the insertion point's two properties is the insertion point |
| Day05Py.BuiltAscending | 05/prog_1.py:83-85 | the vectors of all of a map's rules, inserted in turn, are ascending by source start |
| Day05Py.BuiltRules | 05/prog_1.py:83-85 | the vectors are the map's rules, each once, reordered |
| Day05Py.InsertedRules | 05/prog_1.py:99-114 | the rules of the vectors after an insertion are those before plus the rule inserted |
| Day05Py.BuiltConvert | 05/prog_1.py:83-85 | with rules that agree where they overlap, the sorted vectors convert every number as the rules in the file's order do |
| Day05Py.Lowest | 05/prog_1.py:155-160 | None exactly for no values; otherwise one of the values, at most each of them |
| Day05Py.LowestUnique | 05/prog_1.py:155-160 | any result with those two properties is Lowest's |
| Day05Py.LowestSnoc | 05/prog_1.py:156-160 | one more value replaces the lowest only when none was kept yet or the kept one is greater |
| Day05Py1.Fresh | 05/prog_1.py:30 | each seed's list holds the seed's id and no location yet, one per id, in order |
| Day05Py1.RawToData | 05/prog_1.py:28-49 | the seeds line's integers and the block loop's maps, None where either raises |
| Day05Py1.RicoMappingVector.constructor | 05/prog_1.py:77-85 | the vectors are the map's rules inserted in turn |
| Day05Py1.RicoMappingVector.ProcessRule | 05/prog_1.py:87-116 | the vectors become the old ones with the rule's vector inserted at its place |
| Day05Py1.CreateAllMappingVectors | 05/prog_1.py:118-126 | one list of sorted vectors per map key that exists, in the order of the names |
| Day05Py1.MappedConvert | 05/prog_1.py:128-136 | `get_mapped_object_id` converts a number by the vectors' rules in the vectors' order |
| Day05Py1.BuiltMapped | 05/prog_1.py:128-136 | with rules that agree where they overlap, the sorted vectors map a number as the map's rules convert it |
| Day05Py1.GetMappedObjectId | 05/prog_1.py:128-136 | the loop returns the destination at the offset of the first vector whose source holds the number, else the number |
| Day05Py1.LocatedThrough | 05/prog_1.py:142-149 | a number sent through every map's vectors in turn is the number sent through the maps' rules |
| Day05Py1.BuiltSameLengths | 05/prog_1.py:102 | every vector built has source and destination of one length, so the index at line 135 never raises |
| Day05Py1.Locate | 05/prog_1.py:143-148 | the id left after the loop over the maps is the seed's location under the vectors |
| Day05Py1.ProcessAllSeeds | 05/prog_1.py:138-149 | each seed's list keeps its id and gets its location stored; nothing else changes |
| Day05Py1.LowestLocation | 05/prog_1.py:155-160 | the final loop gives the lowest of the stored locations |
| Day05Py1.VectorsSameLengths | 05/prog_1.py:118-126 | the vectors of every map have source and destination of one length |
| Day05Py1.LowestOfSeeds | 05/prog_1.py:154-160 | the seeds located, then the lowest of their locations |
| Day05Py1.Run | 05/prog_1.py:151-161 | the script prints what Answer says, and raises where the parse raises |
| Day05Py1.AnswerLowest | 05/prog_1.py:151-161 | when the file parses and each map's rules agree where they overlap, the script prints the lowest location of the seeds through the maps that exist, and None exactly when there are no seeds |
| Day05Py2.Pairs | py/05/prog_2.py:32-37 | a seed range for each pair of integers, from the start at the even position to the start plus the length after it; a last start without a length makes none |
| Day05Py2.Fresh | py/05/prog_2.py:36 | each seed's list holds its range and no location ranges yet |
| Day05Py2.SeedRanges | py/05/prog_2.py:31-37 | the loop over the seeds line's integers gives those seed ranges, in order |
| Day05Py2.RawToData | py/05/prog_2.py:28-56 | the seed ranges and the block loop's maps, None where either raises |
| Day05Py2.Insert | py/05/prog_2.py:153 | `list.insert` puts the vector at the index, one longer, the first and last kept where the index is inside |
| Day05Py2.Framed | py/05/prog_2.py:136-140 | the framed vectors start at 0 and end at `max_range_stop` |
| Day05Py2.Filled | py/05/prog_2.py:146-154 | the gap loop loses no vector and keeps the first and the last |
| Day05Py2.CompletedEnds | py/05/prog_2.py:131-140 | the completed vectors are more than before, start at 0 and end at `max_range_stop` |
| Day05Py2.RicoMappingVector.constructor | py/05/prog_2.py:88-97 | `max_range_stop` is 99999999999 and the vectors are the map's rules inserted in turn |
| Day05Py2.RicoMappingVector.ProcessRule | py/05/prog_2.py:100-129 | the vectors become the old ones with the rule's vector inserted at its place |
| Day05Py2.RicoMappingVector.CompleteVectorsDicts | py/05/prog_2.py:131-154 | it raises exactly on a map without rules, and otherwise the vectors become the framed ones with the gaps filled as the gap loop fills them |
| Day05Py2.RicoMappingVector.FillGaps | py/05/prog_2.py:142-154 | the gap loop over the snapshot of starts, stops and indices inserts each gap at its vector's index in the snapshot |
| Day05Py2.CreateAllMappingVectors | py/05/prog_2.py:156-164 | the completed vectors of every map key that exists, in order, None when one of those maps has no rules |
| Day05Py2.FirstAbove | py/05/prog_2.py:174-175 | the first vector from a position on whose source stop is above the bound; every vector before it stops at or below the bound |
| Day05Py2.Bounds | py/05/prog_2.py:170-184 | the search finds nothing exactly when every vector stops at or below the range's start (line 188 then raises); otherwise its indices are inside the list, the first the least and the last the greatest |
| Day05Py2.SearchBounds | py/05/prog_2.py:170-184 | the search loop, comparing the range's start and then its stop, gives those indices |
| Day05Py2.GetMappedRange | py/05/prog_2.py:166-204 | `get_mapped_range` gives the pieces of MappedRange, None where an index raises; MappedRangeShape says what those pieces are |
| Day05Py2.PiecesFromAt | py/05/prog_2.py:192-201 | the piece loop appends one piece per vector of the run, piece q of the run at place q |
| Day05Py2.PieceInRange | py/05/prog_2.py:201 | with `bot` and `top` inside the destination, `range(dst[bot], dst[top])` is `range(dst.start + bot, dst.start + top)` |
| Day05Py2.PiecesOfRun | py/05/prog_2.py:188-201 | the pieces of a run lo..hi are one per vector lo, lo + 1, ..., hi; the first starts at `dst.start + (range.start - src.start)`; and each piece with its indices inside is `range(dst.start + bot, dst.start + top)`, top - bot numbers, one fewer than the source interval it stands for |
| Day05Py2.MappedRangeShape | py/05/prog_2.py:166-204 | for every input on which `get_mapped_range` does not raise: the search found a run l[0]..l[-1] inside the list, and the pieces are that run's pieces as PiecesOfRun states them |
| Day05Py2.MapRanges | py/05/prog_2.py:219-222 | the inner loop concatenates the pieces of each range under one map, None where one raises |
| Day05Py2.LocateRange | py/05/prog_2.py:212-222 | the loop over the maps sends a seed range through each in turn |
| Day05Py2.ProcessAllSeedRanges | py/05/prog_2.py:206-225 | it succeeds exactly when no seed range raises, and then each seed's list holds its range and its location ranges |
| Day05Py2.LowestStep | py/05/prog_2.py:237-242 | one more range's start replaces the lowest only when none was kept yet or the kept one is greater |
| Day05Py2.LowestAmong | py/05/prog_2.py:237-242 | the inner loop gives the lowest of the starts so far and the starts of one seed's ranges |
| Day05Py2.LowestStart | py/05/prog_2.py:235-242 | the result loop gives the lowest start of all location ranges, None when there are none |
| Day05Py2.LowestOfSeeds | py/05/prog_2.py:231-243 | the seed ranges located, then the lowest start, or the exception of a range that raises |
| Day05Py2.Run | py/05/prog_2.py:228-243 | the script prints what Answer says, and raises where the parse, a completion or a range raises |
| Day05Py2Fixed.BuiltFrom | py/05/prog_2.py:96-97 | each vector built is the vector of one of the map's rules |
| Day05Py2Fixed.RulesApart | py/05/prog_2.py:115 | two rules of a map whose non-empty sources do not overlap give vectors with disjoint source ranges |
| Day05Py2Fixed.InsertedChained | py/05/prog_2.py:120-127 | inserting a non-empty vector apart from all others into a chained list (non-empty vectors ascending without overlap) keeps it chained |
| Day05Py2Fixed.BuiltChained | py/05/prog_2.py:96-97 | the vectors of a map with disjoint, non-empty rules are chained |
| Day05Py2Fixed.FramedChained | py/05/prog_2.py:136-140 | framing a chained list that lies inside [0, max) keeps it chained |
| Day05Py2Fixed.Joined | py/05/prog_2.py:146-154 | the first k vectors with every gap between them closed start with the first and end with the k-th |
| Day05Py2Fixed.JoinedTiles | py/05/prog_2.py:146-154 | in a chained list with its gaps closed each vector starts where the one before stops |
| Day05Py2Fixed.FilledFixed | py/05/prog_2.py:151-153 | the corrected gap loop, inserting at the snapshot index plus the gaps already inserted, adds one vector per gap |
| Day05Py2Fixed.FilledFixedJoined | py/05/prog_2.py:146-154 | after k steps the corrected loop's list is the first k vectors with their gaps closed, followed by the rest of the snapshot |
| Day05Py2Fixed.CompletedFixedJoined | py/05/prog_2.py:131-154 | the corrected completion is the framed list with every gap closed |
| Day05Py2Fixed.ChainedOrder | py/05/prog_2.py:145 | in a chained list every vector stops before any later one starts |
| Day05Py2Fixed.MappedMissing | 05/prog_1.py:136 | vectors none of which holds a number map it to itself |
| Day05Py2Fixed.MappedFirst | 05/prog_1.py:132-135 | the first vector holding a number maps it to its destination at the number's offset |
| Day05Py2Fixed.MappedAt | 05/prog_1.py:132-135 | in a chained list any vector holding a number decides its image |
| Day05Py2Fixed.SameMapping | py/05/prog_2.py:137-152 | a chained list holding every vector of another chained list, and otherwise only identity vectors, maps every number alike |
| Day05Py2Fixed.JoinedMembers | py/05/prog_2.py:151-153 | closing the gaps keeps every vector and adds only identity vectors |
| Day05Py2Fixed.FramedMembers | py/05/prog_2.py:136-140 | framing keeps every vector and adds only identity vectors |
| Day05Py2Fixed.CompletedFixedTiles | py/05/prog_2.py:131-154 | the corrected completion of a chained list inside [0, max) tiles [0, max): it starts at 0, each vector starts where the one before stops, and it ends at max |
| Day05Py2Fixed.CompletedFixedMembers | py/05/prog_2.py:131-154 | the corrected completion holds every vector of the list and otherwise only identity vectors |
| Day05Py2Fixed.CompletedFixedMapping | py/05/prog_2.py:131-154 | the corrected completion maps every number as the list did |
| Day05Py2Fixed.FirstReaching | py/05/prog_2.py:180 | the corrected search for the range's stop: the first vector from a position on whose stop reaches the bound, every one before it stopping below |
| Day05Py2Fixed.PieceInside | py/05/prog_2.py:192-201 | the corrected piece of a vector whose destination lies inside [0, max) lies inside it too |
| Day05Py2Fixed.PieceSound | py/05/prog_2.py:192-201 | every number of a corrected piece is the image, under the piece's vector, of a number of the range that vector holds |
| Day05Py2Fixed.PieceComplete | py/05/prog_2.py:192-201 | the image of a number of the range held by a vector of the run lies in one of the corrected pieces |
| Day05Py2Fixed.TiledHolder | py/05/prog_2.py:174-176 | in a tiling of [0, max) the first vector whose stop is above a number inside holds it |
| Day05Py2Fixed.RangeRun | py/05/prog_2.py:170-188 | for a range inside a tiling the corrected search finds a run of vectors the range fits, and the pieces come from that run |
| Day05Py2Fixed.MappedRangeInside | py/05/prog_2.py:166-204 | on a tiling whose destinations lie inside [0, max) a range inside maps without raising, into pieces inside [0, max) |
| Day05Py2Fixed.MappedRangeSound | py/05/prog_2.py:166-204 | every number of the pieces is the image under the vectors of a number of the range |
| Day05Py2Fixed.MappedRangeComplete | py/05/prog_2.py:166-204 | the image under the vectors of every number of the range is a number of the pieces |
| Day05Py2Fixed.MapAllInside | py/05/prog_2.py:219-222 | the ranges one map makes of ranges inside [0, max) are made without raising and lie inside |
| Day05Py2Fixed.MapAllSound | py/05/prog_2.py:219-222 | every number of the ranges one map makes was already gathered or is the image of a number of the ranges |
| Day05Py2Fixed.MapAllKeeps | py/05/prog_2.py:221 | the pieces gathered before stay |
| Day05Py2Fixed.MapAllComplete | py/05/prog_2.py:219-222 | the image of every number of the ranges is a number of the ranges one map makes |
| Day05Py2Fixed.SpreadInside | py/05/prog_2.py:215-222 | sending ranges inside [0, max) through tilings raises nowhere and gives ranges inside |
| Day05Py2Fixed.SpreadSound | py/05/prog_2.py:215-222 | every number of the location ranges is the location of a number of the seed ranges |
| Day05Py2Fixed.SpreadComplete | py/05/prog_2.py:215-222 | the location of every number of the seed ranges is a number of the location ranges |
| Day05Py2Fixed.MapDstInside | py/05/prog_2.py:137-152 | the destinations of a sound map's corrected vectors lie inside [0, `max_range_stop`) |
| Day05Py2Fixed.BuiltWithin | py/05/prog_2.py:96-97 | a sound map's sorted vectors are not empty, chained, start at 0 or above and stop below `max_range_stop` |
| Day05Py2Fixed.MapConverts | py/05/prog_2.py:88-98 | the corrected vectors of a sound map send every number where the map's rules convert it |
| Day05Py2Fixed.MapTiling | py/05/prog_2.py:88-98 | the corrected vectors of a sound map tile [0, `max_range_stop`), keep their destinations inside it, and send every number where the rules convert it |
| Day05Py2Fixed.SentThrough | py/05/prog_2.py:215-222 | vectors that map as their maps convert send every number through the lot as the maps do |
| Day05Py2Fixed.MapsTiling | py/05/prog_2.py:156-164 | for sound maps no completion raises, and the corrected vectors are tilings sending every number through as the maps do |
| Day05Py2Fixed.PrintoutLowest | py/05/prog_2.py:234-243 | on such tilings, with seed ranges inside, the lowest start of the location ranges is the least location of any seed of any range, None exactly without seed ranges |
| Day05Py2Fixed.AnswerFixedLowest | py/05/prog_2.py:227-243 | with the corrected steps, a file that parses, sound maps and seed ranges inside [0, `max_range_stop`), the script prints the least location of any seed of any seed range, and None exactly when there are no seed ranges |
| Day05Py2Findings.EndCompleted | py/05/prog_2.py:131-154 | the map "0 12 1" completes, as written and corrected, to the identity on [0, 12), 12 sent to 0, and the identity from 13 on |
| Day05Py2Findings.EndPullsNext | py/05/prog_2.py:175-201 | on those vectors the range [10, 12) is cut as written into [10, 11) and [0, 0), so it pulls in the next vector and each piece loses its last number; corrected it is [10, 12) |
| Day05Py2Findings.EndPrinted | py/05/prog_2.py:234-243 | as written, the seed range of "10 2" under that map prints 0 |
| Day05Py2Findings.EndPrintedFixed | py/05/prog_2.py:234-243 | corrected, it prints 10, the least location of seeds 10 and 11 |
| Day05Py2Findings.EndScript | py/05/prog_2.py:227-243 | from the rule itself through the script: 0 as written, 10 corrected, and 10 is the least location |
| Day05Py2Findings.GapFramed | py/05/prog_2.py:136-140 | the rules "100 0 5", "200 10 5", "300 20 5" are sorted and framed without a front, with the identity from 25 appended |
| Day05Py2Findings.GapFilled | py/05/prog_2.py:146-154 | as written, the gap loop puts both gaps, [5, 10) and [15, 20), before the vector of [10, 15) |
| Day05Py2Findings.GapFilledFixed | py/05/prog_2.py:146-154 | corrected, each gap sits just before its vector |
| Day05Py2Findings.GapCompleted | py/05/prog_2.py:131-154 | as written the completed list is not ascending; corrected it is the tiling |
| Day05Py2Findings.GapMapped | py/05/prog_2.py:166-204 | the range [12, 13) is cut as written into [17, 17), through the gap [15, 20); corrected into [202, 203) |
| Day05Py2Findings.GapPrinted | py/05/prog_2.py:234-243 | as written, the seed range of "12 1" prints 17 |
| Day05Py2Findings.GapPrintedFixed | py/05/prog_2.py:234-243 | corrected, it prints 202 |
| Day05Py2Findings.GapLocation | py/05/prog_2.py:206-225 | 202 is the location of seed 12 under the three rules |
| Day05Py2Findings.GapScript | py/05/prog_2.py:227-243 | from the rules themselves through the script: 17 as written, 202 corrected, and 202 is the least location |
| Day05Rust1.GetDst | rust/d05_1/src/main.rs:57-66 | the loop returns the destination start plus the offset for the first source range whose bounds, both inclusive, hold the number, else the number |
| Day05Rust1.DstWidened | rust/d05_1/src/main.rs:57-66 | `get_dst` is the conversion by the entry's rules each made one number longer, the source range including its end |
| Day05Rust1.DstIntendedRules | rust/d05_1/src/main.rs:60 | with `src < end` the lookup is exactly the conversion by the file's rules |
| Day05Rust1.EndIncluded | rust/d05_1/src/main.rs:60 | under the rule "50 98 2" `get_dst` sends 100, which the rule does not cover, to 52, while the conversion keeps 100 |
| Day05Rust1.Next | rust/d05_1/src/main.rs:251-284 | LastTable and Unknown stay; every other description moves one step along the chain toward LastTable, never to Unknown |
| Day05Rust1.ChainSteps | rust/d05_1/src/main.rs:251-284 | the chain goes seed, soil, fertilizer, water, light, temperature, humidity, location, LastTable, one step each |
| Day05Rust1.FirstWith | rust/d05_1/src/main.rs:286-295 | the index of the first entry with that source description, and None exactly when no entry has it |
| Day05Rust1.GetEntryIndex | rust/d05_1/src/main.rs:286-295 | the loop gives that index |
| Day05Rust1.Rounds | rust/d05_1/src/main.rs:332-345 | the while loop runs no more rounds than the descriptions left along the chain |
| Day05Rust1.WalkBounded | rust/d05_1/src/main.rs:330-345 | from the seed the walk ends after at most eight lookups |
| Day05Rust1.WalkThrough | rust/d05_1/src/main.rs:330-345 | the walk sends the number through the entries found along the chain, in chain order, up to the first description without an entry, each with its inclusive end |
| Day05Rust1.Locate | rust/d05_1/src/main.rs:330-345 | the loop leaves the seed's walked id |
| Day05Rust1.BestIsLowest | rust/d05_1/src/main.rs:326-350 | the location kept is at most u64::MAX and every seed's location; below u64::MAX it is the location of the first seed reaching it, which is the seed kept; otherwise the seed kept is 0 |
| Day05Rust1.Run | rust/d05_1/src/main.rs:326-350 | the seed loop gives the seed and location Best keeps |
| Day05Rust1.Apply | rust/d05_1/src/main.rs:133-240 | a line's effect keeps every source range paired with its destination range |
| Day05Rust1.LineStep | rust/d05_1/src/main.rs:133-240 | one round of the line loop keeps the ranges paired |
| Day05Rust1.Scanned | rust/d05_1/src/main.rs:133-241 | the line loop keeps the ranges paired |
| Day05Rust1.Input | rust/d05_1/src/main.rs:133-248 | every entry read, the last one pushed after the loop included, has its ranges paired |
| Day05Rust1.SeedsKindOf | rust/d05_1/src/main.rs:139-153 | a line the pattern "seeds:" matches is read as seeds, whatever else it holds |
| Day05Rust1.HeaderKindOf | rust/d05_1/src/main.rs:157-177 | a line matching the header pattern and not "seeds:" is read as a header's pieces |
| Day05Rust1.RuleKindOf | rust/d05_1/src/main.rs:179-234 | a line matching neither pattern is read as a rule's fields |
| Day05Rust1.ReadSeeds | rust/d05_1/src/main.rs:140-152 | "seeds: " removed, the words parsed as `u64` in order, None at the first that fails |
| Day05Rust1.ReadRule | rust/d05_1/src/main.rs:180-222 | the words parsed as `u64` into destination, source and length by position modulo 3, each left 0 when missing, None at the first that fails |
| Day05Rust1.FieldsNone | rust/d05_1/src/main.rs:183-222 | once a word fails to parse, the line fails |
| Day05Rust1.ReadHeader | rust/d05_1/src/main.rs:158-175 | " map:" removed and split at "-to-", an even piece naming a description sets the source, an odd one the destination |
| Day05Rust1.ReadLine | rust/d05_1/src/main.rs:133-240 | one round of the line loop |
| Day05Rust1.ReadRuleLine | rust/d05_1/src/main.rs:179-240 | a rule line's round: its ranges pushed when a map is known, then the entry pushed after a blank line |
| Day05Rust1.GetInput | rust/d05_1/src/main.rs:125-248 | `get_input` on the file's content, Err where a parse fails; AlmanacRoundTrip says what it reads from an almanac file |
| Day05Rust1.NamedAt | rust/d05_1/src/main.rs:162-173 | a table entry that no later entry shares the name of is the one the inner loop keeps |
| Day05Rust1.NamedBack | rust/d05_1/src/main.rs:83-91 | each of the eight names of `almanac_descriptions` is looked up as its own description |
| Day05Rust1.NotSeedsBefore | rust/d05_1/src/main.rs:104 | a text without ':' followed by " map:" does not match the pattern `seeds:` |
| Day05Rust1.BodyPieces | rust/d05_1/src/main.rs:160-161 | " map:" removed from the header "x-to-y map:" leaves "x-to-y", which splits at "-to-" into the two names |
| Day05Rust1.HeaderMatches | rust/d05_1/src/main.rs:93 | "x-to-y map:" matches the pattern `.+?-to-.+? map:` |
| Day05Rust1.HeaderDescribed | rust/d05_1/src/main.rs:160-175 | the pieces of "x-to-y map:" set the source to x and the destination to y, whatever they were |
| Day05Rust1.HeaderRead | rust/d05_1/src/main.rs:156-177 | the header "x-to-y map:" of any two of the eight descriptions is no seeds line, matches the header pattern, holds no newline, and is read back as (x, y) |
| Day05Rust1.HeaderPlain | rust/d05_1/src/main.rs:104 | the header "x-to-y map:" holds neither "seeds:" nor a newline |
| Day05Rust1.BodyKept | rust/d05_1/src/main.rs:160 | " map:" taken out of "x-to-y map:" leaves "x-to-y" |
| Day05Rust1.HeaderStep | rust/d05_1/src/main.rs:156-177 | that header's pass of the loop sets the two descriptions and empties the ranges, and nothing else |
| Day05Rust1.RuleScanStep | rust/d05_1/src/main.rs:178-233 | a rule line after a header appends its ranges before the later lines are read |
| Day05Rust1.RulesScan | rust/d05_1/src/main.rs:178-233 | after a header the rule lines append their ranges [s, s + l] and [d, d + l] in order |
| Day05Rust1.ScannedCons | rust/d05_1/src/main.rs:133-241 | a line that takes the loop from s to t, then more lines, reads as those lines from t |
| Day05Rust1.ScannedAppend | rust/d05_1/src/main.rs:133-241 | the loop over two runs of lines is the loop over the first, then the second |
| Day05Rust1.BlockScan | rust/d05_1/src/main.rs:133-241 | a map's header, rule lines and blank line push one entry: the map's descriptions and the rules' ranges, each side ending with [0, 0] |
| Day05Rust1.BlocksScan | rust/d05_1/src/main.rs:133-241 | the maps' blocks one after the other are read block by block |
| Day05Rust1.MapEntriesAt | rust/d05_1/src/main.rs:235-240 | entry k of those the blocks push is map k's entry |
| Day05Rust1.BlockedEntries | rust/d05_1/src/main.rs:133-241 | after the blocks the seeds are kept and the maps' entries follow the earlier ones, in order |
| Day05Rust1.BlockedLast | rust/d05_1/src/main.rs:133-241 | after no block the state is unchanged, after some it holds the last map's entry |
| Day05Rust1.BlockedShape | rust/d05_1/src/main.rs:133-241 | after the blocks the seeds are kept, one entry per map is pushed in order, and the state holds the last map's entry |
| Day05Rust1.SeedsHead | rust/d05_1/src/main.rs:133-153 | the seeds line and the blank line after it read the seeds and change nothing else |
| Day05Rust1.BlockNoBreaks | rust/d05_1/src/main.rs:133 | no line of a map's block holds a newline |
| Day05Rust1.AlmanacNoBreaks | rust/d05_1/src/main.rs:133 | no line of an almanac file holds a newline, so `split('\n')` gives its lines back |
| Day05Rust1.AlmanacSplit | rust/d05_1/src/main.rs:133 | an almanac file's text split at newlines is its lines |
| Day05Rust1.AlmanacScanned | rust/d05_1/src/main.rs:133-241 | the line loop over an almanac file ends with the seeds read and every map's entry pushed |
| Day05Rust1.AlmanacRoundTrip | rust/d05_1/src/main.rs:125-248 | a file made of a seeds line, a blank line, and for each map its header, rule lines and a blank line, is read back as exactly those seeds and one entry per map in order, each side ending with the [0, 0] of its blank line, followed by the last map's entry pushed once more after the loop |
| Day05Rust1.BlankLine | rust/d05_1/src/main.rs:133-240 | a blank line before any header changes nothing; after one it reads as the rule "0 0 0", adding the range [0, 0] to both sides, and pushes the entry |
| Day05Rust1.ZeroRuleHarmless | rust/d05_1/src/main.rs:57-66 | that range [0, 0] after the others changes no lookup |
| Day05Rust1.UnsignedDecimal | rust/d05_1/src/main.rs:142 | the decimal text of a `u64` parses back to it |
| Day05Rust1.DecimalValues | rust/d05_1/src/main.rs:140-152 | the decimal texts of `u64` values are words and parse back to the values |
| Day05Rust1.RuleTextWords | rust/d05_1/src/main.rs:183 | a rule line written with single spaces splits into its three decimal texts |
| Day05Rust1.FieldsThree | rust/d05_1/src/main.rs:183-222 | three words that parse fill destination, source and length in that order |
| Day05Rust1.RuleTextValues | rust/d05_1/src/main.rs:180-222 | a rule line written from three `u64` values reads back as them |
| Day05Rust1.DigitsOnly | rust/d05_1/src/main.rs:93-112 | a line without '-' and 's' matches neither pattern |
| Day05Rust1.RuleTextRead | rust/d05_1/src/main.rs:139-222 | such a rule line is neither seeds nor header, is not blank and reads back as its values |
| Day05Rust1.RuleStep | rust/d05_1/src/main.rs:223-233 | a non-blank line read as the rule (dst, src, len) in a known map appends [src, src+len] and [dst, dst+len] to the ranges |
| Day05Rust1.RuleLine | rust/d05_1/src/main.rs:179-233 | a rule line written from three `u64` values appends exactly their ranges |
| Day05Rust1.SeedsFront | rust/d05_1/src/main.rs:139-140 | a line "seeds: " followed by text without 's' matches "seeds:" and loses exactly its front |
| Day05Rust1.JoinedValues | rust/d05_1/src/main.rs:140-152 | `u64` values written with single spaces read back as the values |
| Day05Rust1.SeedsTextRead | rust/d05_1/src/main.rs:139-152 | the seeds line written from values is a seeds line and reads back as them |
| Day05Rust1.SeedsStep | rust/d05_1/src/main.rs:139-153 | a seeds line appends its values to the seeds and changes nothing else |
| Day05Rust1.SeedsLineRead | rust/d05_1/src/main.rs:139-153 | the seeds line written from values appends exactly those values |
| Day05Rust1.Solve | rust/d05_1/src/main.rs:298-353 | on a parse error main prints seed 0 and location u64::MAX, otherwise the seed and location Best keeps |
| Oasis.Diffs | 09/prog_2.py:39 | one value fewer than the history, each the difference of two neighbouring values |
| Oasis.Table | 09/prog_2.py:35-40 | the first row is the history and the last row is all zeros |
| Oasis.TableRows | 09/prog_2.py:38-40 | every row above the last holds a value other than 0, and the row after it is its differences |
| Oasis.TableHeight | 09/prog_2.py:38-40 | the table has at most one row more than the history has values, so the loop building it ends |
| Oasis.FlatRow | 09/prog_2.py:44 | a row whose differences are all zeros holds one value throughout, so its last value is its first |
| Oasis.ConstantBefore | rust/d09_2/src/main.rs:95-105 | before a non-empty row of one value c comes c |
| Oasis.LinearBefore | rust/d09_2/src/main.rs:95-105 | before the values a, a + b, a + 2b, ... comes a - b |
| Oasis.ExtendedDiffs | 09/prog_2.py:48-49 | the extrapolated value put before a history extends its differences by the value extrapolated for them: the table stays a difference table |
| Text.ParseSigned | rust/d09_2/src/main.rs:37 | `parse::<i64>`: a result lies within the bounds, and a digit run whose value fits reads as that value |
| Text.ParseSignedDecimal | rust/d09_2/src/main.rs:37 | the text of an integer within the bounds parses back to that integer |
| Text.PyIntSignedDecimal | 09/prog_2.py:18 | `int` reads the text of any integer back as that integer |
| Text.SplitWhitespaceJoin | rust/d09_2/src/main.rs:36 | words joined with single spaces split at whitespace into the same words |
| Text.LinesJoin | rust/d09_2/src/main.rs:34 | `lines()` of lines joined with newlines, the last one non-empty, gives back the lines |
| Text.LinesJoinEnd | rust/d09_2/src/main.rs:34 | `lines()` of lines each ended by a newline gives back the lines |
| Text.TrimNewline | 09/prog_2.py:9 | `strip` drops the newline after a text that starts and ends with non-whitespace, and nothing else |
| Day09Rust2.ReadLine | rust/d09_2/src/main.rs:35-47 | the values of the line's whitespace-separated tokens, in order, None at a token that is no `i64` |
| Day09Rust2.GetInput | rust/d09_2/src/main.rs:32-50 | one list of values per line, None when a token of any line is no `i64` |
| Day09Rust2.Processed | rust/d09_2/src/main.rs:60-93 | the rows start with the history |
| Day09Rust2.ProcessedFirsts | rust/d09_2/src/main.rs:53-106 | folding the processed rows gives the value extrapolated before a non-empty history, and panics for an empty one |
| Day09Rust2.FirstsEmpty | rust/d09_2/src/main.rs:100-101 | an empty row anywhere makes the fold panic at `unwrap` |
| Day09Rust2.ProcessSequence | rust/d09_2/src/main.rs:53-106 | the value extrapolated before the history, None (a panic) for an empty history |
| Day09Rust2.Differences | rust/d09_2/src/main.rs:63-74 | `next_sequence` is the differences of the current row |
| Day09Rust2.ZeroCheck | rust/d09_2/src/main.rs:76-88 | `check` is true exactly when every difference is 0 |
| Day09Rust2.FoldFirsts | rust/d09_2/src/main.rs:95-105 | the fold over the reversed rows, each first value minus the result below, None at an empty row |
| Day09Rust2.Run | rust/d09_2/src/main.rs:109-141 | InputError when `get_input` fails, Panic when a line has no value, otherwise the sum of the values extrapolated before every history |
| Day09Rust2.SumSequences | rust/d09_2/src/main.rs:133-136 | the sum of the extrapolated values, None at the first empty history |
| Day09Rust2.SumStep | rust/d09_2/src/main.rs:135 | the sum over one history more adds its extrapolated value |
| Day09Rust2.HistoryTokens | rust/d09_2/src/main.rs:36 | the tokens of a history's text are the texts of its values |
| Day09Rust2.HistoryRoundTrip | rust/d09_2/src/main.rs:35-47 | the text of a history of `i64` values reads back as the history |
| Day09Rust2.HistoryLine | rust/d09_2/src/main.rs:34 | a history's text holds no newline and is empty only for an empty history |
| Day09Rust2.ReportRoundTrip | rust/d09_2/src/main.rs:32-50 | the text of a report of non-empty `i64` histories, with or without a final newline, reads back as the report |
| Day09Rust2.ReportAnswer | rust/d09_2/src/main.rs:109-141 | for the text of such a report main prints the sum of the values extrapolated before its histories |
| Day09Rust2.BlankPanics | rust/d09_2/src/main.rs:101 | a line without values makes main panic |
| Day09Py2.ParseLine | 09/prog_2.py:18 | the values of the pieces of the line split on single spaces, None when `int` raises on one |
| Day09Py2.ParseInput | 09/prog_2.py:12-19 | one list of values per line, None when `int` raises on any piece |
| Day09Py2.CheckSequence | 09/prog_2.py:21-28 | True exactly when every value is 0 |
| Day09Py2.Rows | 09/prog_2.py:35-40 | the list built by the while loop is the difference table of the history |
| Day09Py2.PrefixGrows | 09/prog_2.py:38-40 | after a last row that is not all zeros the comprehension appends the next row of the table |
| Day09Py2.PrefixDone | 09/prog_2.py:38 | once the last row is all zeros the list is the whole table |
| Day09Py2.Extrapolate | 09/prog_2.py:35-52 | the new first value is the value extrapolated before the history, None (IndexError at `sequences[-2]`) for a history of zeros |
| Day09Py2.InsertBottom | 09/prog_2.py:41-44 | a 0 is put before the row of zeros, and before the row above it the value extrapolated for it |
| Day09Py2.BottomRow | 09/prog_2.py:44 | the last value of the row above the zeros is the value extrapolated before it |
| Day09Py2.InsertFirsts | 09/prog_2.py:45-49 | every row above the zeros ends up with the value extrapolated before it in front, the row of zeros unchanged |
| Day09Py2.LiftStep | 09/prog_2.py:49 | one row more gets its new first value, the rows above it unchanged |
| Day09Py2.LiftedFirst | 09/prog_2.py:49 | the row's first value minus the new first value of the row below is the value extrapolated before the row |
| Day09Py2.Run | 09/prog_2.py:31-54 | None when `int` raises, when a history is all zeros or when the file has no line (the NameError of the last `print(sequences)`), otherwise the sum of the extrapolated values |
| Day09Py2.SumHistories | 09/prog_2.py:33-52 | the sum of the new first values, None at the first history of zeros |
| Day09Py2.SumStep | 09/prog_2.py:52 | the sum over one history more adds its extrapolated value, and a history of zeros is not among them |
| BoatRace.Count | rust/d06_1/src/main.rs:101-107 | the holds counted are never more than the holds tried |
| BoatRace.Reaching | py/06/prog_1.py:45-48 | the holds counted are never more than the holds tried |
| BoatRace.DistanceSymmetric | rust/d06_1/src/main.rs:103 | a hold and the race's time minus it cover the same distance |
| BoatRace.WinnersInterval | rust/d06_1/src/main.rs:102-106 | every hold between two winning holds wins |
| BoatRace.RestLoses | rust/d06_1/src/main.rs:102-106 | with a record of 0 or more the hold of 0 loses, so at most n - 1 of n holds win |
| BoatRace.WinsBound | rust/d06_1/src/main.rs:100-109 | with a record of 0 or more fewer than `time` holds win |
| BoatRace.ReachingAsCount | py/06/prog_1.py:46-47 | `>= record` on integers counts what `> record - 1` counts |
| BoatRace.ReachingZero | py/06/prog_1.py:45-48 | with a record of 0 every hold from 0 to the time reaches it |
| BoatRace.NearerReaches | py/06/prog_1.py:46-47 | a hold within the race reaches a record of 0 |
| BoatRace.DistanceQuarterSquare | rust/d06_1/src/main.rs:103 | no hold covers more than a quarter of the square of the time |
| BoatRace.ReachingAsWins | py/06/prog_1.py:45-48 | the holds 0 to T reaching a record R >= 1 are the holds winning over R - 1; the hold of T adds nothing |
| BoatRace.ProductOfNonZeroDivides | rust/d06_1/src/main.rs:131-138 | the product of the non-zero counts is at least 1 and each of them divides it |
| BoatRace.ProductOfNonZeroPrefix | rust/d06_1/src/main.rs:131-138 | the product over the first races is at most the product over all of them |
| BoatRace.MultipleTimes | rust/d06_1/src/main.rs:136 | multiplying a multiple of d keeps it a multiple of d |
| BoatRace.MultipleMod | rust/d06_1/src/main.rs:136 | d times a value is a multiple of d |
| BoatRace.ProductZero | py/06/prog_1.py:54-57 | the product is 0 exactly when one of the counts is 0 |
| BoatRace.SheetSplit | rust/d06_1/src/main.rs:58 | the sheet split at '\n' gives its times line, its records line and the empty piece after them |
| BoatRace.TimeLine | rust/d06_1/src/main.rs:59-60 | the times line holds "Time:", and without it is its spaced values |
| BoatRace.DistanceLine | rust/d06_1/src/main.rs:73-74 | the records line lacks "Time:", holds "Distance:", and without it is its spaced values |
| BoatRace.SheetLineTrimmed | py/06/prog_1.py:9 | a sheet line ending at its last value is what `strip` leaves of it and its newline |
| BoatRace.NumbersSpacedOnly | rust/d06_2/src/main.rs:60 | the spaced values hold no whitespace but spaces |
| BoatRace.Digits | rust/d06_2/src/main.rs:60 | the values' digits one after the other are digits, and some when there are values |
| BoatRace.KernedOne | rust/d06_2/src/main.rs:60-61 | a single value read without its spaces is itself |
| BoatRace.NumbersKerned | rust/d06_2/src/main.rs:60 | removing the spaces of the spaced values leaves their digits one after the other |
| BoatRace.ParseKerned | rust/d06_2/src/main.rs:61 | those digits read as one unsigned number give the kerned value when it fits |
| Text.SplitWhitespaceBlankEnd | rust/d06_1/src/main.rs:60 | whitespace after the last word adds no word |
| Text.SplitWhitespaceTrimStart | rust/d06_1/src/main.rs:60 | `trim_start` does not change the words |
| Text.SplitWhitespaceTrimEnd | rust/d06_1/src/main.rs:60 | `trim_end` does not change the words |
| Text.SplitWhitespaceTrim | rust/d06_1/src/main.rs:60 | `trim` before `split_whitespace` does not change the words |
| Text.ReplaceCharAppend | rust/d06_2/src/main.rs:60 | removing a char from two strings joined is removing it from each |
| Text.ReplaceAllSpaces | rust/d06_2/src/main.rs:60 | removing the spaces from spaces leaves nothing |
| Text.ReplaceTrimStart | rust/d06_2/src/main.rs:60 | in a string whose whitespace is spaces, `trim_start` does not change what removing the spaces leaves |
| Text.ReplaceTrimEnd | rust/d06_2/src/main.rs:60 | likewise for `trim_end` |
| Text.ReplaceTrimSpaces | rust/d06_2/src/main.rs:60 | in a string whose whitespace is spaces, `trim().replace(" ", "")` is `replace(" ", "")` |
| Day06Rust1.Races | rust/d06_1/src/main.rs:89-94 | one race per pair of the zip, as many as the shorter list, the k-th with id k |
| Day06Rust1.ReadValues | rust/d06_1/src/main.rs:60-71 | the values of a line's tokens as `u16` values, or the error of the first that is not one |
| Day06Rust1.Zip | rust/d06_1/src/main.rs:89-94 | the races of the zip of the times with the records |
| Day06Rust1.ReadLine | rust/d06_1/src/main.rs:59-86 | a times line adds to the times, else a records line adds to the records, any other line changes nothing |
| Day06Rust1.ScannedFails | rust/d06_1/src/main.rs:65-69 | after a line that fails the parse fails whatever follows |
| Day06Rust1.ScannedStep | rust/d06_1/src/main.rs:58-87 | one more line continues the parse by that line |
| Day06Rust1.GetInput | rust/d06_1/src/main.rs:56-96 | the races of the file, or the error of its first unreadable value |
| Day06Rust1.ProcessBoatRaces | rust/d06_1/src/main.rs:100-109 | the ways to win the race, or a panic where `(time - c) * c` overflows a `u16` |
| Day06Rust1.WinsOf | rust/d06_1/src/main.rs:132-134 | the count of each race, in order |
| Day06Rust1.ProductOverflows | rust/d06_1/src/main.rs:136 | once the product passes `usize` no later race brings it back |
| Day06Rust1.Multiply | rust/d06_1/src/main.rs:131-138 | the product of the counts other than 0, or a panic at an overflow of the counts or of the product |
| Day06Rust1.Run | rust/d06_1/src/main.rs:112-143 | main prints that product, ends with `Err(-1)` on a parse error, or panics |
| Day06Rust1.ShortRaceFits | rust/d06_1/src/main.rs:103 | in a race of at most 511 ms every distance is at most 65280 |
| Day06Rust1.OverflowBound | rust/d06_1/src/main.rs:103 | the `u16` product overflows exactly for the races of 512 ms or more |
| Day06Rust1.NumbersValues | rust/d06_1/src/main.rs:60-71 | the spaced values of a line, trimmed, split and parsed, are the values when they fit in a `u16` |
| Day06Rust1.TimeValues | rust/d06_1/src/main.rs:59-71 | the sheet's times line is a times line and reads back as its times |
| Day06Rust1.DistanceValues | rust/d06_1/src/main.rs:73-85 | the sheet's records line is a records line only and reads back as its records |
| Day06Rust1.TimesScanned | rust/d06_1/src/main.rs:58-72 | the times line alone leaves its times and no record |
| Day06Rust1.RecordsScanned | rust/d06_1/src/main.rs:73-85 | the records line adds its records after the times |
| Day06Rust1.SheetInput | rust/d06_1/src/main.rs:29-97 | a sheet of `u16` values reads back as its races |
| Day06Rust1.SheetAnswer | rust/d06_1/src/main.rs:112-143 | a sheet of races under 512 ms prints the product of the non-zero ways to win, or panics when that product passes `usize` |
| Day06Rust1.AnswerDivides | rust/d06_1/src/main.rs:131-140 | a printed result is at least 1 and a multiple of every race's non-zero ways to win |
| Day06Rust2.ScannedFails | rust/d06_2/src/main.rs:65-69 | after a line that fails the parse fails whatever follows |
| Day06Rust2.ScannedStep | rust/d06_2/src/main.rs:58-85 | one more line continues the parse by that line |
| Day06Rust2.ReadLine | rust/d06_2/src/main.rs:59-84 | a times line sets the time, else a records line sets the record, any other line changes nothing |
| Day06Rust2.GetInput | rust/d06_2/src/main.rs:56-89 | the race of id 0 with the last time and the last record read, 0 when none, or the first parse error |
| Day06Rust2.ProcessBoatRace | rust/d06_2/src/main.rs:93-102 | the ways to win the race, or a panic where `(time - c) * c` overflows a `usize` |
| Day06Rust2.Run | rust/d06_2/src/main.rs:105-129 | main prints the ways to win, ends with `Err(-1)` on a parse error, or panics |
| Day06Rust2.OverflowBound | rust/d06_2/src/main.rs:96 | the 64-bit product overflows exactly for the races of 2^33 ms or more |
| Day06Rust2.UnlabelledLines | rust/d06_2/src/main.rs:56-58 | without a times line or a records line the race is 0, 0, and main prints 0 |
| Day06Rust2.KernedValue | rust/d06_2/src/main.rs:60-61 | a sheet line without its label, trimmed and without spaces, reads as its kerned value |
| Day06Rust2.TimeScanned | rust/d06_2/src/main.rs:59-71 | the times line alone sets the kerned time |
| Day06Rust2.RecordScanned | rust/d06_2/src/main.rs:72-84 | the records line sets the kerned record |
| Day06Rust2.SheetInput | rust/d06_2/src/main.rs:29-90 | a sheet reads back as the race of its kerned time and record when both fit |
| Day06Rust2.SheetAnswer | rust/d06_2/src/main.rs:105-129 | for a kerned time under 2^33 main prints that race's ways to win |
| Day06Py1.Zipped | py/06/prog_1.py:18-19 | one dict per pair of the zip, as many as the shorter list, without a count |
| Day06Py1.ParseInput | py/06/prog_1.py:12-20 | `parse_input`: the dicts of the two lines' values, or the raise of an IndexError or ValueError |
| Day06Py1.Zip | py/06/prog_1.py:18-19 | the loop over the zip appends the dicts of the pairs |
| Day06Py1.CountSolutions | py/06/prog_1.py:45-48 | the holds 0 to T that reach the record, none for a negative T |
| Day06Py1.ComputeSolutionNumeric | py/06/prog_1.py:38-48 | every dict gets its count of solutions, the rest unchanged |
| Day06Py1.Solutions | py/06/prog_1.py:54-57 | the count of each dict, in order |
| Day06Py1.Run | py/06/prog_1.py:50-58 | the script prints the product of the counts, or raises |
| Day06Py1.ZeroRecord | py/06/prog_1.py:45-48 | with a record of 0 a race of T has T + 1 solutions |
| Day06Py1.TiesCount | py/06/prog_1.py:46-47 | the solutions of a record R are the wins over R - 1: a tie counts |
| Day06Py1.TieCounted | py/06/prog_1.py:47 | time 4 and record 4: one solution, the tie of the hold 2, and no win |
| Day06Py1.AnswerZero | py/06/prog_1.py:54-57 | the printed product is 0 exactly when some race has no solution |
| Day06Py1.IndexErrors | py/06/prog_1.py:18 | an empty file, a file of one line, or a first line without ':' raise |
| Day06Py1.DecimalInts | py/06/prog_1.py:18 | `int` reads each decimal back as its value |
| Day06Py1.SheetTokens | py/06/prog_1.py:18 | a sheet line split on ':' is its label and its values, whose non-empty pieces are their decimals |
| Day06Py1.SheetValues | py/06/prog_1.py:18 | the ints of a sheet line are its values |
| Day06Py1.SheetLoaded | py/06/prog_1.py:5-10 | `load_input` keeps the two sheet lines without their newlines |
| Day06Py1.SheetParsed | py/06/prog_1.py:12-20 | `parse_input` pairs the values of the two sheet lines |
| Day06Py1.SheetAnswer | py/06/prog_1.py:50-58 | on a sheet the script prints the product of the solutions of its races |
| Day06Py2.Paired | 06/prog_2.py:19 | the zip goes as far as the shorter list |
| Day06Py2.Glue | 06/prog_2.py:19-21 | the loop glues the words of both lines pairwise, up to the shorter line |
| Day06Py2.ParseInput | 06/prog_2.py:12-22 | `parse_input`: the dict of the glued time and record, or the raise of an IndexError or ValueError |
| Day06Py2.ComputeSolutionNumeric | 06/prog_2.py:39-48 | the dict gets its count of solutions, the rest unchanged |
| Day06Py2.Run | 06/prog_2.py:50-58 | the script as written: a raise on every file |
| Day06Py2.RunIntended | 06/prog_2.py:50-58 | the script as meant prints the count of the race |
| Day06Py2.GluedAppend | 06/prog_2.py:20-21 | gluing one more word puts it at the end |
| Day06Py2.GluedDecimals | 06/prog_2.py:20-22 | the decimals of values glued are their digits one after the other |
| Day06Py2.SheetTokens | 06/prog_2.py:19 | the words after the ':' of a sheet line are its values' decimals |
| Day06Py2.GluedValue | 06/prog_2.py:22 | `int` of the first m decimals glued is their kerned value |
| Day06Py2.SheetTexts | 06/prog_2.py:19-21 | the glued texts of the sheet: the decimals of both lines up to the shorter one |
| Day06Py2.SheetParsed | 06/prog_2.py:12-22 | the sheet's dict holds the kerned time and record of the paired values, or a raise when a line has none |
| Day06Py2.SheetAnswer | 06/prog_2.py:50-58 | on a sheet the script as meant prints the count of that race, and raises when a line has no value |
| Day06Py2.SevenNine | 06/prog_2.py:45-48 | a race of time 7 and record 9 has four solutions |
| Day06Py2.SevenNineLines | 06/prog_2.py:19 | the two lines of that race are sheet lines |
| Day06Py2.SheetAnswerOne | 06/prog_2.py:50-58 | a sheet of one time and one record, as meant, prints that race's count |
| Day06Py2.NothingPrinted | 06/prog_2.py:55-58 | for the race 7, 9 the script as meant prints 4 and as written prints nothing |
| Day09Py2.EmptyFileRaises | 09/prog_2.py:53 | a file without lines ends in a NameError |
| Day09Py2.ZerosRaise | 09/prog_2.py:44 | a history of zeros ends the program |
| Day09Py2.LineRoundTrip | 09/prog_2.py:5-18 | the line of a non-empty history, stripped and parsed, gives the history |
| Day09Py2.HistoryTrimmed | 09/prog_2.py:9 | stripping the line of a non-empty history leaves its text |
| Day09Py2.HistoryPieces | 09/prog_2.py:18 | the text of a non-empty history split on single spaces gives the texts of its values |
| Day09Py2.ReportAnswer | 09/prog_2.py:31-54 | the file of a non-empty report without a history of zeros parses back to the report, and the program prints the sum of the values extrapolated before its histories |
| Wasteland.Gcd | rust/d08_2/src/main.rs:172 | the gcd of two values not both 0 is positive |
| Wasteland.GcdDivides | rust/d08_2/src/main.rs:172 | the gcd of two values not both 0 is positive and divides both |
| Wasteland.LcmMultiple | rust/d08_2/src/main.rs:172 | `lcm` of two positive counts is positive and a multiple of both |
| Wasteland.LcmKeeps | rust/d08_2/src/main.rs:170-173 | a multiple of a count stays one through every later `lcm` of the fold |
| Wasteland.LcmOfDivides | py/08/prog_2.py:81 | `lcm` of positive counts is positive and a multiple of each of them |
| Wasteland.LcmOfZero | py/08/prog_2.py:81 | one count of 0 makes `lcm` 0 |
| Wasteland.Phase | py/08/prog_2.py:72-73 | the instruction of a move lies within the instruction list, which repeats |
| Wasteland.PhaseNext | py/08/prog_2.py:72-73 | one move on, the instruction's place advances by one and wraps to the first after the last |
| Day08Rust1.IdConverter | rust/d08_1/src/main.rs:90-97 | `id_converter`: the first three chars of the text, with '.' where it is shorter |
| Day08Rust1.LabelPadded | rust/d08_1/src/main.rs:90-97 | an id is the text padded with dots and cut to three chars, later chars ignored |
| Day08Rust1.LabelKeeps | rust/d08_1/src/main.rs:90-97 | three chars come back unchanged whatever follows them |
| Day08Rust1.GetAsStr | rust/d08_1/src/main.rs:33-58 | `get_as_str`: the chars of the named attribute pushed in order |
| Day08Rust1.AttribNames | rust/d08_1/src/main.rs:33-58 | only "id", "left" and "right" give three chars; any other name gives "NO" |
| Day08Rust1.NodeTextPlaces | rust/d08_1/src/main.rs:61-65 | a node's text is 22 chars with its id and its two neighbours at fixed places, so they read back |
| Day08Rust1.ReadDirections | rust/d08_1/src/main.rs:129-142 | the directions of the first line in order, or the error at a char other than 'R' and 'L' |
| Day08Rust1.DirectionsRead | rust/d08_1/src/main.rs:129-142 | written directions read back, and a line is an error exactly when it holds a char other than 'R' and 'L' |
| Day08Rust1.ReadNode | rust/d08_1/src/main.rs:146-154 | the node of a non-empty line, or the panic of a missing '=' or ',' piece |
| Day08Rust1.ReadNodes | rust/d08_1/src/main.rs:127-156 | the nodes of the lines after the first, in order, empty lines skipped, or the panic of the first bad line |
| Day08Rust1.PanicStays | rust/d08_1/src/main.rs:145-155 | after a line that panics no later line changes the outcome |
| Day08Rust1.GetInput | rust/d08_1/src/main.rs:99-158 | `get_input` on the content split on '\n': the direction error first, else the nodes or the panic |
| Day08Rust1.Run | rust/d08_1/src/main.rs:160-186 | `main` prints the directions, a line of '#' and the nodes, or fails with the input error, or panics |
| Day08Rust1.SplitNodeLine | rust/d08_1/src/main.rs:146-150 | a node line splits on '=' after its id and on ',' after its left neighbour |
| Day08Rust1.LeftRead | rust/d08_1/src/main.rs:152 | the first comma piece of a node line reads as the left neighbour |
| Day08Rust1.RightRead | rust/d08_1/src/main.rs:153 | the second comma piece of a node line reads as the right neighbour |
| Day08Rust1.NodeRead | rust/d08_1/src/main.rs:146-154 | a node written as `AAA = (BBB, CCC)` reads back |
| Day08Rust1.BrokenPanics | rust/d08_1/src/main.rs:127-156 | one line that panics makes the whole loop panic |
| Day08Rust1.NoEqualsPanics | rust/d08_1/src/main.rs:146-150 | a line without '=' panics at `equal_split[1]` |
| Day08Rust1.LinePanics | rust/d08_1/src/main.rs:145-157 | a non-empty line without '=' after good directions makes `get_input` panic |
| Day08Rust1.SheetPieces | rust/d08_1/src/main.rs:127 | a puzzle file splits on '\n' into its lines and an empty piece after the last newline |
| Day08Rust1.SheetNodes | rust/d08_1/src/main.rs:145-155 | the node lines of a puzzle file give its nodes one line at a time |
| Day08Rust1.SheetLine | rust/d08_1/src/main.rs:145-154 | line j + 2 of a puzzle file is non-empty and reads as node j |
| Day08Rust1.SheetRead | rust/d08_1/src/main.rs:99-186 | a puzzle file reads back as its nodes and directions, and `main` prints their texts |
| Day08Rust2.ReadDirections | rust/d08_2/src/main.rs:65-80 | the directions of the first line in order, or the error at a char other than 'L' and 'R' |
| Day08Rust2.DirectionsRead | rust/d08_2/src/main.rs:65-80 | written directions read back, and a line is an error exactly when it holds a char other than 'L' and 'R' |
| Day08Rust2.ReadSides | rust/d08_2/src/main.rs:92-99 | the first comma piece sets the left id and every later one the right id |
| Day08Rust2.ReadNode | rust/d08_2/src/main.rs:84-103 | the node of a line: the trimmed first '=' piece, the sides of the later ones, "000" for what is missing |
| Day08Rust2.GetInput | rust/d08_2/src/main.rs:30-109 | `get_input` on the content's lines: the direction error, else the map and the directions |
| Day08Rust2.LoadLines | rust/d08_2/src/main.rs:63-106 | the first line gives the directions or the error, the second is skipped, the others are inserted |
| Day08Rust2.ReadNodes | rust/d08_2/src/main.rs:83-105 | every line from index 2 on inserted under its id in turn |
| Day08Rust2.WalkStart | rust/d08_2/src/main.rs:113-115 | the walk starts at the start's node, with no move counted |
| Day08Rust2.WalkStep | rust/d08_2/src/main.rs:118-130 | a move to a missing id panics, one onto an id ending with 'Z' returns the count, any other goes on |
| Day08Rust2.ComputeSteps | rust/d08_2/src/main.rs:113-133 | `compute_steps`: the walk's count, a missing node, or no end within the fuel |
| Day08Rust2.WalkFromFirst | rust/d08_2/src/main.rs:117-132 | the walk from move k reaches its end at move n exactly when n is within the fuel and the first end from k on |
| Day08Rust2.StepsFirst | rust/d08_2/src/main.rs:113-133 | the count is n exactly when move n, at least 1, is the first onto an id ending with 'Z' and every earlier move found its node |
| Day08Rust2.StartNotTested | rust/d08_2/src/main.rs:127-129 | a start ending with 'Z' that leads to itself is counted one move, not zero |
| Day08Rust2.Run | rust/d08_2/src/main.rs:135-178 | `main`: the input error, or the lcm fold of the walks of the starts in the map's order |
| Day08Rust2.FoldSteps | rust/d08_2/src/main.rs:170-173 | the loop folding the counts from 1 with `lcm` gives the fold's outcome |
| Day08Rust2.CombinedNext | rust/d08_2/src/main.rs:171-173 | one start more: its count's `lcm` with the result so far, a panic past `usize::MAX` or at a missing node |
| Day08Rust2.CombinedStays | rust/d08_2/src/main.rs:171-173 | once the fold stops printing, later starts do not change its outcome |
| Day08Rust2.AnswerDivides | rust/d08_2/src/main.rs:170-175 | a printed result is positive, at most `usize::MAX`, and a multiple of every start's count, each of which reached its end |
| Day08Rust2.CombinedLast | rust/d08_2/src/main.rs:172 | a printed result is the `lcm` of the fold before the last start and that start's positive count |
| Day08Rust2.TrimmedLabel | rust/d08_2/src/main.rs:89 | an id followed by blanks trims to the id |
| Day08Rust2.LeftRead | rust/d08_2/src/main.rs:94 | `(BBB` after a blank reads as BBB |
| Day08Rust2.TrimMatchesFront | rust/d08_2/src/main.rs:94 | `trim_matches` strips a leading char the rest lacks |
| Day08Rust2.TrimMatchesBack | rust/d08_2/src/main.rs:97 | `trim_matches` strips a trailing char the rest lacks |
| Day08Rust2.RightRead | rust/d08_2/src/main.rs:97 | `CCC)` after a blank reads as CCC |
| Day08Rust2.NodeRead | rust/d08_2/src/main.rs:84-103 | a node written as `AAA = (BBB, CCC)` reads back |
| Day08Rust2.LabelsRead | rust/d08_2/src/main.rs:89-97 | the three ids of a node line come out of their pieces |
| Day08Rust2.SplitNodeLine | rust/d08_2/src/main.rs:87-92 | a node line splits on '=' after its id and on ',' after its left neighbour |
| Day08Rust2.FieldsPair | rust/d08_2/src/main.rs:87-101 | two '=' pieces give the trimmed id and the sides of the second |
| Day08Rust2.SidesPair | rust/d08_2/src/main.rs:92-99 | two comma pieces give the left id of the first and the right id of the second |
| Day08Rust2.KeyLine | rust/d08_2/src/main.rs:104 | every key of the map is the id of a node inserted before |
| Day08Rust2.LineKey | rust/d08_2/src/main.rs:104 | the id of every inserted node is a key of the map |
| Day08Rust2.LastWins | rust/d08_2/src/main.rs:104 | an id maps to the last node inserted with it: a later line overwrites an earlier one |
| Day08Rust2.SheetLines | rust/d08_2/src/main.rs:63 | the lines of a puzzle file are its directions, a blank line and its node lines |
| Day08Rust2.SheetNode | rust/d08_2/src/main.rs:83-103 | line k + 2 of a puzzle file reads as node k |
| Day08Rust2.DistinctInserted | rust/d08_2/src/main.rs:83-105 | nodes with distinct ids map every id to its node and no other key |
| Day08Rust2.SheetInput | rust/d08_2/src/main.rs:30-109 | a puzzle file with distinct ids reads back as its directions and a map from every id to its node |
| Day08Py.StoredValid | py/08/prog_2.py:22 | `result[key] = values` keeps a dict a dict, maps the key, leaves the others, and appends a new key last |
| Day08Py.ReadMoves | py/08/prog_2.py:18 | the moves of the first line, 0 for 'L' and 1 for 'R', or the KeyError of another char |
| Day08Py.ReadEntry | py/08/prog_2.py:20-21 | the key before " = " and the names after it, or the IndexError of a line without " = " |
| Day08Py.FilledStays | py/08/prog_2.py:19-22 | after a line that raises, no later line changes the outcome |
| Day08Py.ReadEntries | py/08/prog_2.py:19-21 | the entries of the node lines in order |
| Day08Py.StoreEntries | py/08/prog_2.py:19-22 | the entries stored in turn, or the raise of the first bad line |
| Day08Py.ParseInput | py/08/prog_2.py:12-23 | `parse_input`: the instructions, then every line from index 2 stored, or the raise |
| Day08Py.FilledValid | py/08/prog_2.py:16-22 | storing the lines keeps a dict whose first keys are those it started with |
| Day08Py.ParsedValid | py/08/prog_2.py:12-23 | the parsed dict is a dict whose first key is "instructions" |
| Day08Py.FilledMoves | py/08/prog_2.py:21-22 | node lines store tuples only, so a list in the dict is one it started with |
| Day08Py.ParsedMoves | py/08/prog_2.py:18-22 | a list under "instructions" is the moves of the first line, each 0 or 1 |
| Day08Py.LastEntryWins | py/08/prog_2.py:22 | a key maps to the tuple of the last line with that key |
| Day08Py.KeysEnding | py/08/prog_2.py:30-31 | the comprehension of the keys whose third char is 'A' or 'Z' |
| Day08Py.KeysWithSpec | py/08/prog_2.py:30-31 | the comprehension raises exactly on a key shorter than three chars, and keeps exactly the keys with that third char |
| Day08Py.NodeNames | py/08/prog_2.py:34-36 | the keys but "instructions", in order |
| Day08Py.NumberNodes | py/08/prog_2.py:32-38 | the loop numbering every key but "instructions" by how many came before it |
| Day08Py.NumberedSpec | py/08/prog_2.py:32-38 | with distinct keys, node i gets number i and only nodes get numbers |
| Day08Py.Indices | py/08/prog_2.py:42-45 | the start or end keys replaced by their numbers, or the KeyError of one that is no node |
| Day08Py.InsertPairs | py/08/prog_2.py:39-41 | the loop inserting every node's pair of neighbour numbers at its own number |
| Day08Py.TableStays | py/08/prog_2.py:40-41 | after a node whose pair raises, no later node changes the outcome |
| Day08Py.IndexKeys | py/08/prog_2.py:42-45 | the loop replacing the start or end keys by their numbers in place |
| Day08Py.ReindexAsIntNodes | py/08/prog_2.py:25-46 | `reindex_as_int_nodes`: the table, the start and end numbers and the numbering, or the raise |
| Day08Py.TableSpec | py/08/prog_2.py:39-41 | inserting at the numbers 0, 1, ... appends, so pair i of the table is that of node i |
| Day08Py.TableComplete | py/08/prog_2.py:39-41 | without a missing pair the table is complete |
| Day08Py.ReindexSpec | py/08/prog_2.py:25-46 | node i gets number i, its pair is its two neighbours' numbers, and the start and end lists hold the numbers of the nodes with third char 'A' or 'Z' |
| Day08Py.ReindexParts | py/08/prog_2.py:25-46 | a successful reindexing is made of its comprehensions, numbering, table and index lists |
| Day08Py.ReindexPaired | py/08/prog_2.py:32-41 | the numbering is node i to i and the table pairs every node with its neighbours |
| Day08Py.PairsPaired | py/08/prog_2.py:41 | a table whose entry k is the pair of node k pairs every node, within the table |
| Day08Py.ReindexMarked | py/08/prog_2.py:30-31 | the start and end lists hold exactly the numbers of the nodes with third char 'A' or 'Z' |
| Day08Py.IndexMember | py/08/prog_2.py:42-45 | a number is among the replaced keys exactly when its node's name is one of them |
| Day08Py.ShortKeyRaises | py/08/prog_2.py:30 | a key shorter than three chars raises the IndexError of `x[2]` |
| Day08Py.BadPairRaises | py/08/prog_2.py:41 | a node with one name, or a neighbour that is no node, raises |
| Day08Py.StepClosed | py/08/prog_2.py:77 | in a closed table every move 0 or 1 from a node leads to a node |
| Day08Py.WalkTest | py/08/prog_2.py:74-76 | the test at a place: the end stops the walk with the count, and the last place within the fuel leaves it unfinished |
| Day08Py.WalkStep | py/08/prog_2.py:77-78 | a move that raises fails the walk, any other leaves it on its way one move on |
| Day08Py.WalkFromFirst | py/08/prog_2.py:72-78 | a walk reaches its end at n exactly when n is within the fuel and the first end, every move before it made |
| Day08Py.WalkNeverFails | py/08/prog_2.py:77 | a walk all of whose moves succeed never raises |
| Day08Py.NamesRead | py/08/prog_2.py:21 | the text after " = " loses its brackets and blank |
| Day08Py.LineParts | py/08/prog_2.py:20 | a node line splits at " = " into its name and its bracketed pair |
| Day08Py.PairParts | py/08/prog_2.py:21 | the bracketed pair, stripped, splits into the two names |
| Day08Py.EntryRead | py/08/prog_2.py:20-21 | a node line reads back as its name and the tuple of its neighbours |
| Day08Py2.CountSteps | py/08/prog_2.py:69-78 | the `while not found` loop of one start: its walk's count, a raise, or no end within the fuel |
| Day08Py2.TallyStays | py/08/prog_2.py:68-79 | once a walk stops the script, later starts do not change the outcome |
| Day08Py2.TallyWalks | py/08/prog_2.py:67-79 | `nodes_nb_steps` filled in place with the count of each start's walk, or where the script stopped |
| Day08Py2.Run | py/08/prog_2.py:57-83 | the script: load, parse, reindex, the walks, then `lcm` of the first six counts |
| Day08Py2.WalkOfFirst | py/08/prog_2.py:72-78 | a walk counts n exactly when n is within the fuel and its first end; a start that is an end counts 0 |
| Day08Py2.PositionInTable | py/08/prog_2.py:77 | in a closed table moves of 0 and 1 always lead to a node |
| Day08Py2.TallySpec | py/08/prog_2.py:67-79 | the counts are the walks' counts in start order exactly when every walk ends; otherwise the first walk that raises or runs on stops the script |
| Day08Py2.FinishSpec | py/08/prog_2.py:81 | fewer than six counts raise exactly; six positive counts give a positive multiple of each; a 0 gives 0 |
| Day08Py2.IndicesBelow | py/08/prog_2.py:42-45 | the numbers of named nodes are below the number of nodes |
| Day08Py2.StartsInTable | py/08/prog_2.py:25-46 | the table of a reindexing is closed and its starts are nodes of it |
| Day08Py2.TallyNeverRaises | py/08/prog_2.py:67-79 | walks of moves 0 and 1 from nodes of a closed table never make the script raise |
| Day08Py2.NoWalkRaises | py/08/prog_2.py:57-83 | on a file that parses and reindexes with moves as instructions, the script prints, runs on, or has fewer than six starts |
| Day08Lockstep.Moved | 08/prog_2.py:79-80 | every node moved by one instruction, or the IndexError of one that cannot move |
| Day08Lockstep.CheckEndReached | 08/prog_2.py:54-61 | `check_end_reached` is true exactly when every current node is an end node |
| Day08Lockstep.MoveAll | 08/prog_2.py:79-80 | the nodes replaced in place by their neighbours; at an IndexError those before are moved and the others not |
| Day08Lockstep.WalkAll | 08/prog_2.py:70-85 | the `while not found` loop ends as the lockstep walk says |
| Day08Lockstep.WalkMoves | 08/prog_2.py:74-85 | the loop over moves ends as the lockstep walk says |
| Day08Lockstep.Round | 08/prog_2.py:75-85 | one pass: the test, the moves, the counter and its cap; where it stops it gives the walk's outcome, else the walk goes on |
| Day08Lockstep.EndFound | 08/prog_2.py:76-78 | a test that finds every node at an end stops the walk with the counter |
| Day08Lockstep.RoundMoved | 08/prog_2.py:79-85 | after a failed test a raise stops the walk, the counter reaching 10000000 stops it with that count, another round goes on |
| Day08Lockstep.Run | 08/prog_2.py:63-87 | the script: load, parse, reindex, then the lockstep walk from the start nodes |
| Day08Lockstep.InStep | 08/prog_2.py:79-80 | after k rounds the nodes are, one by one, where each start's own walk is after k moves |
| Day08Lockstep.LockstepFirst | 08/prog_2.py:74-85 | the script prints n below 10000000 exactly when round n is the first with every node at an end, and prints 10000000 only when no earlier round was |
| Day08Lockstep.WalkUnfinished | 08/prog_2.py:74-85 | a walk that runs past its fuel made every move and met no end |
| Day08Lockstep.LockstepPrints | 08/prog_2.py:74-87 | from nodes of a closed table with moves 0 and 1 the script always prints |
| Day08Lockstep.FilePrints | 08/prog_2.py:63-87 | on a file that parses and reindexes with moves as instructions, the script never raises and runs on exactly when the first line is empty |
| Day08Py1.MainLoop | py/08/prog_1.py:44-52 | the script's loop as written: the node tested stays 'AAA' |
| Day08Py1.Run | py/08/prog_1.py:38-53 | the script: load, parse, then the loop from 'AAA' |
| Day08Py1.StaysAtStart | py/08/prog_1.py:24-28 | as written every place of the walk is 'AAA', or a raise |
| Day08Py1.NeverReached | py/08/prog_1.py:46-52 | as written the walk never reaches 'ZZZ' |
| Day08Py1.NeverPrints | py/08/prog_1.py:38-53 | as written the script never prints, whatever the file |
| Day08Py1.IntendedFirst | py/08/prog_1.py:46-52 | with the move as intended the script prints n exactly when n is within the fuel and 'ZZZ' is first met after n moves from 'AAA' |
| Day08Py1.SheetLoaded | py/08/prog_1.py:4-9 | the lines of a one-move file are their own strips |
| Day08Py1.SheetEntries | py/08/prog_1.py:18-21 | the node lines of that file read as their names and neighbours |
| Day08Py1.SheetParsed | py/08/prog_1.py:11-22 | that file parses to the one move and the two nodes |
| Day08Py1.ShortSheetParsed | py/08/prog_1.py:11-22 | the file from 'AAA' to 'ZZZ' parses to the move right and the two nodes |
| Day08Py1.IntendedOnSheet | py/08/prog_1.py:46-52 | on that dict the intended walk prints 1 |
| Day08Py1.AsWrittenOnSheet | py/08/prog_1.py:46-52 | with the one move right the script as written neither prints nor raises |
| Day08Py1.ShortSheetDiffers | py/08/prog_1.py:24-28 | on that file the intended script prints 1 and the script as written runs for ever |

## Left out

- Reading the input files, the current directory, `println!`, `print`, `eprintln!` and the displays (`display_tiles`, `display_tiles_inplace`, the HTML dumps of py/10/prog_1.py, the JSON dump of 07/prog_1.py): input and output, the file's content is a parameter.
- Rust's `slice::sort` is modelled as a stable insertion sort, and Python's `sorted` likewise: only its result, a stable ordering, is modelled.
- `usize` and `u64` overflow in the sums is not modelled: the integers are unbounded.
- The out-of-bounds write `cards[index_card]` of rust/d07_2 for a sixth card is a panic, modelled as an error result.
- The type names of 07/prog_1.py are only printed, so a type is its value.
- Text.PyInt: does not accept the underscores between digits that Python's `int` also accepts.
- Day10Py1.ParseInput: pandas pads short rows with NaN; the model refuses rows of another width, and the dist frame's shape check is modelled as refusing non-square input.
- Day10Py1.WalkAgents: runs at most `fuel` rounds; the Python loop has no bound and loops forever on a maze whose agents never meet.
- Rust's `as_bytes()[index] as char` in `get_letter_char_from_index` and C `char` arithmetic are modelled on chars: the words are ASCII, so bytes and chars agree.
- Text.PyInt: Python's `int` also accepts non-ASCII decimal digits; the model accepts ASCII digits only.
- Day01C.Solve: the C `int` total is unbounded here; C overflow is not modelled.
- The `ARO DEBUG` prints and the `printf` of `get_from_right`, which also reads `line[i+1]`, are output only.
- Day01Py.Solve: takes `digit_mapper` as a parameter; the program passes `Day01Py.DigitMapper`.
- The `u32` sums of rust/d02_01 and rust/d02_2 are unbounded here; the overflow of `result +=` is not modelled.
- Rust's byte slices `coma_split[1..n]` panic off a char boundary; records are ASCII, where byte and char indices agree, and a slice whose bounds fall outside the piece is modelled as a failure.
- Day02Rust2.Solve: the `power` field that main sets on each game is a local value, since nothing else reads it.
- The first question of py/02/prog.py is inside a string literal and never runs, so it is not modelled.
- Day02Py.Answer: `readlines` is modelled by its result, the file's lines each with its newline, the last one without when the file does not end with one.
- Day02Py.IdOf: Python's `int` also accepts surrounding whitespace of other kinds and underscores; the model reads what Text.PyInt reads.
- Day03Rust2.Run and Day03Rust1.Run: `get_input`'s own None, returned when the file cannot be read, is I/O and not modelled (main prints 0 then); every None of the model is a panic.
- The `u32` values and sums of rust/d03_2 and rust/d03_01 (`number = 10 * number + val`, `result +=`) are unbounded here; their overflow is not modelled.
- Day03Rust1.NumberLen: the f32 divisions of rust/d03_01 are modelled as exact; rounding of values above 2^24 is not modelled.
- The JSON dumps of 03/prog.py and py/03/prog_2.py are output only; the first question of 03/prog.py (lines 99-106) and the second of py/03/prog_2.py (lines 147-173) are inside string literals and never run.
- Python dicts of 03/prog.py and py/03/prog_2.py are records: the order of their keys is only seen by the JSON dumps.
- Day03Py.LineChar: states `last_char_was_int` only away from the line's end. At the end the `except` clears it whatever the char, and the next line resets it anyway.
- Day03Py.MidAsIntended: needs a number without a leading zero, because `len(str(value))` is then shorter than the run and shifts the slices.
- Day03Py.StartLeft: needs a number without a leading zero, for the same reason.
- Day03Py2.Run: starts from the stripped lines; `load_input` of py/03/prog_2.py is the same function as that of 03/prog.py, modelled as Day03Py.LoadInput.
- Day03Py2.InteriorSides: describes the four strings only three columns and one line away from the grid's edges; StarEdges covers the edges and WrapMisreadsLeft and RightEdgeRaises the columns near them.
- The Rust solvers index chars with `chars().nth` and slice bytes; the schematic is ASCII, where the two agree.
- The `DEBUG` branches of rust/d04_1 and rust/d04_2 and their `DebugCard` type are switched off by `const DEBUG: bool = false`, so they are not modelled.
- Day04Rust.Intersection: the Rust collects the intersection from a `HashSet`, whose order is not modelled; only its length is used.
- Day04Rust.GetInput: `get_input`'s own errors for the working directory and the unreadable file are I/O and not modelled (main prints 0 then as well).
- Day04Py.ComputeScore: `compute_score` is only called inside a string literal and never runs; it is modelled as returning the scores instead of storing a "score" key in each dict.
- The prints of `compute_copies` and the JSON dump of py/04/prog.py are output only.
- Day04Rust2.TableAnswer: with ids other than 1, 2, ... the runs of rust/d04_2 start at index `id`, and the model computes them but relates them to the puzzle's instances only for the puzzle's numbering.
- The `i64` values of rust/d09_2 and its differences and sum (`current_nb - last_nb`, `res +=`) are unbounded here; their overflow is not modelled.
- Day09Rust2.Run: `get_input`'s errors for the working directory and the unreadable file are I/O and not modelled; its parse error, after which main returns `Err(-1)`, is InputError.
- Text.Lines: keeps a '\r' before a '\n' on its line, where Rust's `lines()` drops it; the day 9 solver splits the line at whitespace, which drops it too, so the values read are the same.
- The prints of the rows in rust/d09_2 and 09/prog_2.py are output only; the last `print(sequences)` of 09/prog_2.py is modelled only for its NameError when the file has no line.
- The `DEBUG` constant of rust/d09_2 only chooses the input file's name.

- The `u16` distances and the `usize` counts and product of rust/d06_1, and the `usize` distances of rust/d06_2, are modelled as a debug build runs them: an overflow is a panic; a release build would wrap instead.
- Day06Rust1.Run and Day06Rust2.Run: `get_input`'s errors for the working directory and the unreadable file are I/O and not modelled; its parse error, after which main returns `Err(-1)`, is InputError.
- The `DEBUG` constant of rust/d06_1 and rust/d06_2 only chooses the input file's name; `debug_print` and the `println!` of each race are output only.
- `compute_solution_analytic` of py/06/prog_1.py and 06/prog_2.py uses floating point and is never called, so it is not modelled.
- The JSON dumps of py/06/prog_1.py and 06/prog_2.py are output only.
- Day06Py1.ComputeSolutionNumeric and Day06Py2.ComputeSolutionNumeric: the dicts that `compute_solution_numeric` updates in place are modelled as returned values, since no other reference to them is kept.
- Day06Py2.Run: the script as written raises a TypeError in its final loop; the time `compute_solution_numeric` takes before that is not modelled.

- Day08Rust2.ComputeSteps: runs at most `fuel` moves; `compute_steps` has no bound and loops for ever on a walk that never meets an id ending with 'Z', which the model returns as Unfinished.
- Day08Rust2.Run: takes the order in which `HashMap::into_iter` yields the starts as a parameter, any order of the ids ending with 'A'; the order only matters for which walk panics or runs on first.
- Day08Rust2.AnswerDivides: states that the printed result is a common multiple of the counts, not that it is the least one.
- Day08Py2.FinishSpec: states that the lcm of six positive counts is a common multiple of them, not that it is the least one.
- Day08Py2.Run and Day08Py2.CountSteps: every walk runs at most `fuel` moves; the script's loops have no bound and an unfinished walk stands for a script that never stops.
- Day08Py1.Run and Day08Py1.MainLoop: the loop runs at most `fuel` moves; the script's loop has no bound, and as written it never ends on a file whose instructions are moves.
- The starts and ends of py/08/prog_2.py and 08/prog_2.py are kept in the dict's key order, and the dict is modelled with its keys in insertion order, as Python keeps them.
- The `print(f'{START_NODES=}')`, `print(f'{END_NODES=}')`, `print(nodes_nb_steps)` and `print('10M reached')` of the Python day 8 scripts, and the `println!` and `eprintln!` of rust/d08_2, are output only; the final `print(result)` is the outcome's number.
- The timing with `datetime.now()` in py/08/prog_2.py and 08/prog_2.py is output only, and 08/prog_2.py imports `json` and `Thread` without using them.
- `parse_input` and `load_input` are the same functions in py/08/prog_1.py, py/08/prog_2.py and 08/prog_2.py, and `reindex_as_int_nodes` in the last two: each is modelled once, as Day08Py.ParseInput, Day03Py.LoadInput and Day08Py.ReindexAsIntNodes.
- Day08Lockstep.Run: `current_nodes = START_NODES` makes the two names one list, which the loop changes in place; the model copies the starts into the array it moves, since nothing reads START_NODES after the loop starts.
- `HASH_TABLE_SIZE`, `debug_print`, `Direction`'s `Display` for the unknown direction and `BoostedString::into` of rust/d08_1 are never used (`into` is the loop of `id_converter` again), so they are not modelled apart from it; `Node::new` is the datatype's constructor.
- Day08Rust1.GetInput and Day08Rust2.GetInput: the errors for the working directory and the unreadable file are I/O and not modelled.
- The `DEBUG` constant of rust/d08_2 only chooses the input file's name.
- Day08Py1.MainLoop: `process_node` rebinds only its own parameter, so its return value, None, is dropped; the model keeps the node and the IndexError of an instruction past the name's length.

- The `u64` sums of rust/d05_1 (`src_start + lenght`, `dst_start + lenght`, `ranges_dst[i].start + src - alma_range_src.start`) are unbounded here; their overflow is not modelled.
- Day05Rust1.GetInput: `get_input`'s error for the unreadable file is I/O and not modelled; the two `Regex::new` errors cannot happen for the fixed patterns, and the patterns `seeds:` and `.+?-to-.+? map:` are modelled by what they match in a line without a newline.
- Rust's `split_whitespace` and `trim` are modelled on ASCII whitespace; the other Unicode whitespace chars they also drop are not modelled.
- The `DEBUG` constant of rust/d05_1 only chooses the input file's name; its `println!` and `eprintln!`, and the `PROCESSING` prints of py/05/prog_2.py, are output only.
- `get_serializable_data_input` and the JSON dumps of 05/prog_1.py and py/05/prog_2.py are output only; the range text they write is not modelled.
- `full_load_input` of 05/prog_1.py and py/05/prog_2.py is `load_input` followed by `raw_data_input_to_data_input`; `load_input` is the same function as that of 03/prog.py, modelled as Day03Py.LoadInput.
- Day05Py.InsertRule: the front insert after the loop (line 115 of 05/prog_1.py, line 128 of py/05/prog_2.py) cannot be reached, since the loop returns on every list that is not empty; it is an `assert false` in the model.
- Day05Py.Present: the dict's keys are met in insertion order, which is the order of the names, since every key is created by its own block in that order; a key a block does not create is absent, and the maps are applied without it.
- Day05Py2.RicoMappingVector.constructor: models lines 94-97; `CreateAllMappingVectors` calls `CompleteVectorsDicts` right after it, which is line 98, so that a map without rules raises there.
- Day05Py2Fixed.AnswerFixedLowest: holds for sound maps only (rules present, not overlapping, each moving at least one number, sources inside [0, `max_range_stop`) ending below it, destinations inside it) and for seed ranges that are not empty and lie inside [0, `max_range_stop`): a source ending at `max_range_stop` frames the list with an empty vector, and a range outside it finds no vector.
- Day05Py1.AnswerLowest: holds when each map's rules agree where they overlap, as the puzzle's rules do; with rules that disagree the script takes the first in sorted order rather than the file's first, and the model computes what it prints without relating it to the file's order.

## Findings

| source | as written | input that shows it | evidently intended | confidence | as-written member | corrected member |
|---|---|---|---|---|---|---|
| rust/d01_2/src/main.rs:32-41 | each letter buffer grows on any char that equals its next letter, so the word's letters need not be adjacent | the line "twao" gives left digit 2 | a word counts only when its letters appear together | not executed | Day01Rust2.ScatteredWord | Day01Rust2.SpelledFound, Day01Rust2.ScatteredWordCorrected |
| 01/prog.py:23 | the length test asks for one char more than the word, so a word ending the line is skipped; in the reversed line the kept newline comes first | the line "two\n" raises `UnboundLocalError` | `digit_mapper_len <= line_size - i` | not executed | Day01Py.TwoAsWritten | Day01Py.IntendedScan, Day01Py.TwoIntended |
| rust/d03_01/src/main.rs:95 | `while _n > 10f32` counts a power of ten one digit short, so the window starts one column late and the number's own first digit becomes `left` | the single line "10" is summed though only dots surround it | `_n >= 10f32`, the decimal length | not executed | Day03Rust1.PowerOfTenValid, Day03Rust1.TenCounted | Day03Rust1.DigitLen, Day03Rust1.NeighbourValid |
| 03/prog.py:49-55 | for a number that ends its line, the slices above and below stop one column before its last digit | ["....", "...1", "...*"]: the '*' under the 1 is not in its dict | the slices reach the last digit's column, then a '.' | not executed | Day03Py.EndShiftMissesStar | Day03Py.SurroundFixedStars, Day03Py.MidAsIntended |
| 03/prog.py:70-72 | on the first line a number at column 0 gets `bot` from a slice with a negative start, which counts from the line's end | ["1.", "*."]: the '*' under the 1 is not in its dict | start the slice at column 0 behind a '.', as lines 77-79 do on inner lines | not executed | Day03Py.EdgeColumnMissesStar | Day03Py.SurroundFixedStars |
| py/03/prog_2.py:75-78 | for a star at column 1 or 2, `line[index_char - 2]` or `line[index_char - 3]` has a negative index and reads from the line's end | ["1*.5", "...."]: `left` is "51" and 51 is a number of the star | stop at column 0 | not executed | Day03Py2.WrapMisreadsLeft | Day03Py2.PrependFixedSpec, Day03Py2.PrependAgrees |
| 06/prog_2.py:55-58 | `for dico in data_input` goes over the dict `parse_input` returns, so it sees its key strings, and `dico["nb_solution"]` raises a TypeError: nothing is printed | "Time:      7\nDistance:  9\n" raises instead of printing 4 | print the count of the one race, `data_input["nb_solution"]` | not executed | Day06Py2.Run, Day06Py2.NothingPrinted | Day06Py2.RunIntended, Day06Py2.SheetAnswer |
| py/08/prog_1.py:24-28 | `process_node` assigns `node[instruct]` to its own parameter only, so the node the loop tests stays 'AAA' and the script never prints | the file "R", "", "AAA = (ZZZ, ZZZ)", "ZZZ = (ZZZ, ZZZ)" runs for ever instead of printing 1 | move to `data_input[node][instruct]` | not executed | Day08Py1.NeverPrints, Day08Py1.ShortSheetDiffers | Day08Py1.IntendedFirst, Day08Py1.IntendedOnSheet |
| rust/d05_1/src/main.rs:60 | `src <= alma_range_src.end`, with `end = start + lenght` (line 228), also sends the number one past the source range | the rule "50 98 2" sends seed 100 to 52, where it should stay 100 | `src < alma_range_src.end` | not executed | Day05Rust1.EndIncluded, Day05Rust1.DstWidened | Day05Rust1.DstIntendedRules |
| py/05/prog_2.py:175-201 | the stop is searched with `<`, so a range ending where a vector ends pulls in the next vector, whose piece ends at `dst[-1]`; and each piece is `range(dst[bot], dst[top])` with `top` its last index, so it loses its last number | the seeds "10 2" under the one rule "0 12 1" print 0 instead of 10 | search the stop with `<=` and end each piece at `dst[top] + 1` | not executed | Day05Py2Findings.EndScript, Day05Py2Findings.EndPullsNext | Day05Py2Fixed.MappedRangeSound, Day05Py2Fixed.MappedRangeComplete, Day05Py2Fixed.AnswerFixedLowest |
| py/05/prog_2.py:153 | each gap is inserted at its vector's index in the snapshot, which the gaps inserted before have shifted, so from the second gap on the identity vector lands before the wrong vector | the rules "100 0 5", "200 10 5", "300 20 5" and the seeds "12 1" print 17 instead of 202 | insert at the snapshot index plus the gaps already inserted | not executed | Day05Py2Findings.GapScript, Day05Py2Findings.GapCompleted | Day05Py2Fixed.FilledFixedJoined, Day05Py2Fixed.CompletedFixedTiles, Day05Py2Findings.GapFilledFixed |

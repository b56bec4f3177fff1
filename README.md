# PokerTexter in Dafny

PokerTexter answers text messages such as "seven eight suited one" with the
pre-flop statistics of that starting hand: the probability of winning, the
probability of tying, and the expected unit gain against the given number of
opponents. It has two parts, and this project models the logic of both:

- The **lookup-table generator** (`generate-lookup-tables/generate-lookup-table.py`)
  estimates, by Monte-Carlo simulation, the statistics of each of the 169
  starting-hand classes and writes one tab-separated row per class.
  - `get_probabilities` builds the 52-card deck and removes the hero's two
    cards. On every trial it reshuffles the deck in place, deals the board and
    the opponents' hole cards from the front, and classifies the showdown with
    `eval_table`.
  - `expected_gain` turns the win and tie rates into a gain per unit bet.
  - `main` enumerates the classes in a fixed nested-loop order.
  - The entry point rejects opponent counts outside 1..22.
- The **request handler** (`run-pokertexter.py`) normalises and tokenises the
  message. It parses ranks, suiting and opponent count with `get_rank`,
  `get_suiting` and `get_players`, applies its checks in a fixed order, puts
  the two ranks in table order, and scans the table for the first matching row.

The modules are:

| module | file | contents |
|---|---|---|
| `Results` | `results.dfy` | `Option` and `Result` |
| `Text` | `text.dfy` | the Python `str` operations used: `strip`, `lower`, `split`, `in` |
| `Cards` | `cards.dfy` | cards, the deck, `list.remove` |
| `Equity` | `equity.dfy` | `eval_table`, the sampler, `get_probabilities`, `expected_gain`, the range check |
| `LookupTable` | `lookup_table.dfy` | the class enumeration of `main`, its rows, the row layout of `write_to_file` |
| `Texter` | `texter.dfy` | the token parsers and `respond` |

The model is imperative where the generator is. `EvalTable`,
`GetProbabilities`, `GenerateTable` and `RowsFrom` are methods with loops, and
`RowsAt`, one pass of the inner loop's body, is a method that calls
`GetProbabilities` once or twice. Each method is proved against a reference function (`Showdown`,
`Tally`, `Estimate`, `RowsFor`), and the source's promises are lemmas about
those functions. The handler has no loop that updates state, so it is
modelled with functions.

The following are function parameters:

- the hand evaluator, a `Scorer` (lower is stronger), required to return
  scores in [1, 7462];
- `random.shuffle`, a `Shuffler` that receives the deck and the trial number
  and is required (where a lemma needs it) to keep the deck's multiset;
- `str(float)`, `fmt`, whose text is required to be non-empty and free of
  whitespace;
- the table files, `tables`, a map from the opponent digit to the file's lines.

A card is a (rank, suit) pair of indices into "23456789TJQKA" and "sdch".

Four behaviours of the code shape the model:

- Every trial reshuffles the same list in place, so trial `k` deals from the
  deck after `k` shuffles (`DeckAfter`).
- Each pair heads the rows of its first rank, followed by that rank's offsuit
  and suited rows for the higher ranks (`ClassList`, `ClassIndex`).
- Only the opponent count is range-checked (1..22, at the entry point), and
  Python's slicing would truncate silently. `Slice` models the clamping, and
  `CheckOpponents` proves that 22 opponents fit in the 50 remaining cards.
- A negative trial count is accepted: `range(trials)` is then empty, and the
  rates are zero divided by the count (`Runs`, `EstimateOfNoTrials`). Only a
  zero count fails, on the division.

## Model

| member | source | states |
|---|---|---|
| Cards.RankCharsDistinct | run-pokertexter.py:21 | the 13 rank symbols are pairwise distinct, so a symbol identifies its rank |
| Cards.NewDeckFacts | generate-lookup-tables/generate-lookup-table.py:69 | the deck built from suits × ranks has 52 pairwise-distinct cards and holds every (rank, suit) card exactly once |
| Cards.Remove | generate-lookup-tables/generate-lookup-table.py:72-73 | `list.remove` fails exactly when the card is absent; otherwise it removes exactly one copy and leaves one card fewer |
| Cards.HeroDeckFacts | generate-lookup-tables/generate-lookup-table.py:72-73 | removing the two hero cards fails exactly when they are equal; otherwise 50 distinct cards remain: every card except the two hero cards |
| Cards.HeroDeckByRemovals | generate-lookup-tables/generate-lookup-table.py:72-73 | the first removal never fails, the second fails only on a repeated card, and the two removals give the hero deck |
| Equity.ExpectedGain | generate-lookup-tables/generate-lookup-table.py:27-36 | the gain is the expected payoff when a win pays `other_players` units, a tie nothing and a loss one unit, the loss having probability 1 - wins - ties; its values and bounds are in `ExpectedGainCorners`, `ExpectedGainMonotone` and `ExpectedGainBounds` |
| Equity.ExpectedGainCorners | generate-lookup-tables/generate-lookup-table.py:27-36 | a sure win gains `other_players` units, a sure tie 0 and a sure loss -1 |
| Equity.ExpectedGainMonotone | generate-lookup-tables/generate-lookup-table.py:27-36 | the gain is strictly increasing in the win rate and in the tie rate |
| Equity.ExpectedGainBounds | generate-lookup-tables/generate-lookup-table.py:27-36 | for probabilities the gain lies in [-1, other_players] |
| Equity.SentinelBestDetectsTie | generate-lookup-tables/generate-lookup-table.py:47-53 | when no opponent beats a hero score below 9999, the running minimum equals the hero's score exactly when some opponent ties it |
| Equity.EvalTable | generate-lookup-tables/generate-lookup-table.py:38-56 | LOSE exactly when some opponent scores strictly lower than the hero. TIE exactly when none does and the sentinel-started minimum equals the hero's score. For a hero score below 9999 the outcome is the "best hand wins, ties shared" showdown |
| Equity.Slice | generate-lookup-tables/generate-lookup-table.py:78-80 | Python slicing: the plain slice when in range; past the end it is clamped to the rest from `lo` (empty when `lo` is past the end too); never longer than `hi - lo` |
| Equity.DealFrom | generate-lookup-tables/generate-lookup-table.py:80 | one hole hand is dealt per opponent |
| Equity.DealLayout | generate-lookup-tables/generate-lookup-table.py:78-80 | with enough cards the board is positions 0..4 and opponent `x` holds positions 5+2x and 6+2x |
| Equity.LaidOutCardsDistinct | generate-lookup-tables/generate-lookup-table.py:78-80 | cards dealt from distinct positions of a duplicate-free deck form a 5-card board and 2-card hands that are pairwise disjoint |
| Equity.LaidOutAvoidsHero | generate-lookup-tables/generate-lookup-table.py:78-80 | no dealt card is a hero card when the deck lacks the hero cards |
| Equity.DealIsProper | generate-lookup-tables/generate-lookup-table.py:77-80 | a deal from a duplicate-free deck of at least 5+2n cards without the hero's cards has the stated layout and is proper: every dealt set is pairwise disjoint and disjoint from the hero's cards |
| Equity.DeckAfterKeepsCards | generate-lookup-tables/generate-lookup-table.py:77 | any number of in-place shuffles keeps the multiset of the deck |
| Equity.ShuffledDeckFacts | generate-lookup-tables/generate-lookup-table.py:74-77 | the reshuffled deck keeps its size, stays free of duplicates and never regains a hero card |
| Equity.TrialDealIsProper | generate-lookup-tables/generate-lookup-table.py:74-80 | for distinct hero cards and at most 22 opponents, every trial's deal is proper |
| Equity.TallyStep | generate-lookup-tables/generate-lookup-table.py:74-85 | each trial reshuffles the previous trial's deck and adds its outcome to at most one of the win and tie counts |
| Equity.TallyPartitionsTrials | generate-lookup-tables/generate-lookup-table.py:74-85 | each trial has exactly one outcome: wins + ties + losses == trials, hence wins + ties <= trials |
| Equity.RatiosAreProbabilities | generate-lookup-tables/generate-lookup-table.py:86 | two counts summing to at most n > 0 give ratios in [0, 1] summing to at most 1 |
| Equity.EstimateIsProbability | generate-lookup-tables/generate-lookup-table.py:74-86 | the returned win and tie rates each lie in [0, 1] and sum to at most 1, and both are zero for a negative trial count |
| Equity.EstimateOfRunTrials | generate-lookup-tables/generate-lookup-table.py:74-86 | with a positive trial count the rates are probabilities |
| Equity.EstimateOfNoTrials | generate-lookup-tables/generate-lookup-table.py:74-86 | with a negative trial count no trial runs and both rates are zero |
| Equity.GetProbabilities | generate-lookup-tables/generate-lookup-table.py:58-86 | fails exactly on a repeated hero card (`remove` error) or a zero trial count (division by zero); a negative count runs no trial and succeeds. Otherwise it returns the win and tie rates of the reference showdown over the cumulatively shuffled trials, which are probabilities |
| Equity.CheckOpponents | generate-lookup-tables/generate-lookup-table.py:135-138 | accepts exactly 1..22 opponents, rejects fewer and more with distinct errors, and an accepted count leaves room for board and hands in 50 cards |
| LookupTable.SuitingName | generate-lookup-tables/generate-lookup-table.py:115-125 | the suiting field starts with 's' exactly when suited and with 'o' exactly when offsuit |
| LookupTable.InnerClassesFacts | generate-lookup-tables/generate-lookup-table.py:104-126 | the inner loop for `c1` emits 2(c2-c1)-1 valid classes of first rank `c1`, each at the position `ClassIndex` gives it |
| LookupTable.OuterClassesFacts | generate-lookup-tables/generate-lookup-table.py:103-126 | the outer loop up to `k` emits `RowsBelow(k)` valid classes of first rank below `k`, class `i` at position `i` |
| LookupTable.InnerClassesComplete | generate-lookup-tables/generate-lookup-table.py:104-126 | the inner loop emits every valid class of its first rank, at its position |
| LookupTable.OuterClassesComplete | generate-lookup-tables/generate-lookup-table.py:103-126 | the outer loop emits every valid class of a lower first rank, at its position |
| LookupTable.ClassInItsOuterPass | generate-lookup-tables/generate-lookup-table.py:103-126 | a valid class is emitted during the outer pass of its first rank, at its position |
| LookupTable.ClassCount | generate-lookup-tables/generate-lookup-table.py:102-126 | `main` emits exactly 169 classes |
| LookupTable.ClassPositions | generate-lookup-tables/generate-lookup-table.py:102-126 | every emitted class is valid (first rank not above the second, no suited pair) and row `i` holds the class of position `i` |
| LookupTable.ClassesValid | generate-lookup-tables/generate-lookup-table.py:105-112 | every emitted class has index(r1) <= index(r2) and no suited pair |
| LookupTable.ClassesDistinct | generate-lookup-tables/generate-lookup-table.py:102-126 | no class is emitted twice |
| LookupTable.ClassesComplete | generate-lookup-tables/generate-lookup-table.py:102-126 | every valid class is emitted, at position `ClassIndex` |
| LookupTable.SuitedFollowsOffsuit | generate-lookup-tables/generate-lookup-table.py:117-126 | for two different ranks the suited row comes immediately after the offsuit row |
| LookupTable.ClassListIndexed | generate-lookup-tables/generate-lookup-table.py:102-126 | the emitted class list is valid, position-indexed and complete |
| LookupTable.PairRows | generate-lookup-tables/generate-lookup-table.py:112-116 | exactly 13 rows have equal ranks, and none of them is suited |
| LookupTable.OuterPairCount | generate-lookup-tables/generate-lookup-table.py:103-116 | the outer loop up to `k` emits exactly `k` pairs |
| LookupTable.InnerPairCount | generate-lookup-tables/generate-lookup-table.py:104-116 | each inner loop emits exactly one pair |
| LookupTable.HeroCards | generate-lookup-tables/generate-lookup-table.py:112-125 | the two hero cards are always distinct, carry the class's ranks, and share a suit exactly when the class is suited |
| LookupTable.RowsConsistentFor | generate-lookup-tables/generate-lookup-table.py:92-93 | every row written for valid classes holds probabilities, their expected gain, and a gain in [-1, other_players] |
| LookupTable.RowsAreConsistent | generate-lookup-tables/generate-lookup-table.py:97-126 | every row of the table is consistent in that sense |
| LookupTable.GenerateTable | generate-lookup-tables/generate-lookup-table.py:97-126 | fails exactly when the trial count is zero. Otherwise it returns, in emission order, one row per class of the enumeration, each from one call of `get_probabilities` |
| LookupTable.OuterStep | generate-lookup-tables/generate-lookup-table.py:103-104 | the rows up to first rank `c1 + 1` are those up to `c1` followed by the inner loop's rows at `c1` |
| LookupTable.InnerStep | generate-lookup-tables/generate-lookup-table.py:104-126 | the inner loop's rows up to `c2 + 1` are those up to `c2` followed by those of `c2` |
| LookupTable.RowsFrom | generate-lookup-tables/generate-lookup-table.py:104-126 | the inner loop fails exactly when the trial count is zero and otherwise returns the rows of its classes in order |
| LookupTable.RowsAt | generate-lookup-tables/generate-lookup-table.py:112-126 | one inner-loop pass never fails on its hero cards. It fails only on a zero trial count and otherwise emits the offsuit row and, for different ranks, then the suited row |
| LookupTable.RowsForAppend | generate-lookup-tables/generate-lookup-table.py:103-126 | the rows of two class lists appended are the two row lists appended |
| LookupTable.Generate | generate-lookup-tables/generate-lookup-table.py:134-149 | succeeds exactly for 1..22 opponents and a non-zero trial count. It rejects fewer or more opponents before simulating, fails on a zero trial count, and on success returns the 169-class table |
| LookupTable.RowLine | generate-lookup-tables/generate-lookup-table.py:88-94 | every written row ends with its newline; its field layout and round trip are in `RowLineLayout` and `SixFieldsRoundTrip` |
| LookupTable.TableFile | generate-lookup-tables/generate-lookup-table.py:88-95 | one line per row, line `k` being row `k` as written |
| LookupTable.StripLine | generate-lookup-tables/generate-lookup-table.py:94 | a text that starts and ends with a non-space character, followed by a newline, strips to the text itself |
| LookupTable.SixFieldsRoundTrip | generate-lookup-tables/generate-lookup-table.py:92-94 | six tab-free fields written tab-separated with a newline come back from strip and split |
| LookupTable.RowLineLayout | generate-lookup-tables/generate-lookup-table.py:92-94 | a written row has r1 at position 0, r2 at 2 and the suiting's first letter at 4. Stripped and split on tabs it gives back the six fields, the statistics at 3, 4 and 5 |
| Texter.GetRank | run-pokertexter.py:30-62 | the result is one of the 13 table ranks or None |
| Texter.GetSuiting | run-pokertexter.py:64-76 | "offsuit" exactly when the token contains "of" or "un" (even next to "suit"); "suited" exactly when it contains neither but contains "suit"; otherwise None |
| Texter.GetPlayers | run-pokertexter.py:78-104 | the result is one of '1'..'9' or None |
| Texter.RankLetters | run-pokertexter.py:35-44 | "a", "k", "q", "j", "t" and "10" map to A, K, Q, J, T |
| Texter.RankDigit | run-pokertexter.py:45-60 | each digit 2..9 maps to its own rank |
| Texter.RankWordsAceToTen | run-pokertexter.py:35-44 | "ace", "king", "queen", "jack", "ten" map to their ranks |
| Texter.RankWordsNineEight | run-pokertexter.py:45-48 | "nine" and "eight" map to 9 and 8 |
| Texter.RankWordSeven | run-pokertexter.py:49-50 | "seven" maps to 7 |
| Texter.RankWordSix | run-pokertexter.py:51-52 | "six" maps to 6 |
| Texter.RankWordFive | run-pokertexter.py:53-54 | "five" maps to 5 |
| Texter.RankWordFour | run-pokertexter.py:55-56 | "four" maps to 4 |
| Texter.RankWordThree | run-pokertexter.py:57-58 | "three" maps to 3 |
| Texter.RankWordTwo | run-pokertexter.py:59-60 | "two" maps to 2 ("two" holds no earlier rank word such as "ten") |
| Texter.PlayerDigit | run-pokertexter.py:85-102 | each digit 1..9 maps to itself |
| Texter.PlayerWordsOneToThree | run-pokertexter.py:97-102 | "one", "two", "three" map to 1, 2, 3 |
| Texter.PlayerWordsFourToSix | run-pokertexter.py:91-96 | "four", "five", "six" map to 4, 5, 6 |
| Texter.PlayerWordsSevenToNine | run-pokertexter.py:85-90 | "seven", "eight", "nine" map to 7, 8, 9 |
| Texter.Tokens | run-pokertexter.py:122-123 | every token is non-empty and holds no space |
| Texter.IndexOf | run-pokertexter.py:156 | `ranks.index(c)` is a position of `c` in the table order |
| Texter.Order | run-pokertexter.py:156-159 | {lower, higher} is {rank1, rank2} and index(lower) <= index(higher) |
| Texter.OrderSymmetric | run-pokertexter.py:156-159 | swapping the two ranks gives the same (lower, higher) |
| Texter.LineMatches | run-pokertexter.py:167 | a line matches exactly when it is longer than 4 and positions 0, 2 and 4 hold lower, higher and the suiting letter. It raises an index error exactly when it is empty, or starts with `lower` and is shorter than 3, or also has `higher` at 2 and is shorter than 5; every other line fails cleanly |
| Texter.StatsFrom | run-pokertexter.py:168-172 | the matching line, stripped and split on tabs, answers with its fields 3, 4 and 5 exactly when it has at least six fields, and raises an index error otherwise |
| Texter.Scan | run-pokertexter.py:164-174 | the scan never produces a text message: statistics, no match, or an index error. Which one is stated by `ScanFirstMatch`, `ScanFirstError` and `ScanNoMatch` |
| Texter.ScanNoMatch | run-pokertexter.py:164-174 | the handler falls off its end exactly when every line fails the test without an index error |
| Texter.ScanFirstMatch | run-pokertexter.py:164-174 | the first matching line, after lines that all fail cleanly, answers |
| Texter.ScanFirstError | run-pokertexter.py:164-174 | the first line that raises an index error, after lines that all fail cleanly, ends the scan with that error |
| Texter.Parse | run-pokertexter.py:138-141 | the four parsers' results are values they can return |
| Texter.Check | run-pokertexter.py:143-174 | checks in order: missing player count → players error (even with bad ranks); then a missing rank or suiting → standard error; the suited-pair error exactly for equal ranks with "suited"; no error message exactly for a well-formed request |
| Texter.CheckSymmetric | run-pokertexter.py:154-159 | swapping the two parsed ranks never changes the reply |
| Texter.Answer | run-pokertexter.py:132-141 | anything but four tokens gets the standard error before parsing; four tokens are parsed and checked |
| Texter.Respond | run-pokertexter.py:121-135 | "example" anywhere in the normalised message is answered with the examples first; otherwise the tokens are answered |
| Texter.AnswerSymmetric | run-pokertexter.py:138-159 | swapping the two rank tokens does not change the reply |
| Texter.RowLineMatches | run-pokertexter.py:167 | a row the generator writes passes the lookup test exactly when its ranks are lower and higher and its suiting letter is the requested one |
| Texter.SuitingLetterDecides | run-pokertexter.py:166-167 | "offsuit" and "suited" differ in their first letter, so that letter decides the suiting |
| Texter.OtherRowMisses | run-pokertexter.py:167 | the written row of any other valid class fails the test cleanly |
| Texter.ScanFindsIndexedRow | run-pokertexter.py:164-172 | in a position-indexed table the scan for a class reads fields 3, 4 and 5 of that class's row |
| Texter.ClassOf | run-pokertexter.py:154-159 | a well-formed request names a valid class with lower and higher as its ranks, suited exactly when "suited" |
| Texter.CheckScans | run-pokertexter.py:154-167 | a well-formed request is answered by the scan of its table for its class's ranks and letter |
| Texter.GeneratedRowsIndexed | generate-lookup-tables/generate-lookup-table.py:102-126 | the generator's rows for an indexed class list are indexed too, row `ClassIndex(c)` being class `c`'s row |
| Texter.CheckReadsTable | run-pokertexter.py:162-172 | a well-formed request against an indexed table is answered with its class's row statistics |
| Texter.CheckReadsGeneratedTable | run-pokertexter.py:162-172 | end to end: against the file the generator writes for that opponent count, a well-formed request is answered with the win, tie and gain fields the generator computed for its class |
| Text.TrimLeft | run-pokertexter.py:122 | exactly the leading whitespace is removed: the result is a suffix not starting with whitespace, and every removed character is whitespace |
| Text.TrimRight | run-pokertexter.py:122 | exactly the trailing whitespace is removed: the result is a prefix not ending with whitespace, and every removed character is whitespace |
| Text.Lower | run-pokertexter.py:122 | every character is lower-cased and the length kept |
| Text.ContainsIsSubstring | run-pokertexter.py:35 | the substring test holds exactly when the pattern is a slice of the text |
| Text.SplitFieldsOmitSeparator | run-pokertexter.py:123 | no split field contains the separator |
| Text.SplitJoin | run-pokertexter.py:168 | separator-free fields joined by the separator split back into those fields |
| Text.DropEmpty | run-pokertexter.py:123 | a field is kept exactly when it is a non-empty field of the input |
| Text.DropEmptyAppend | run-pokertexter.py:123 | the filter keeps the order of the fields: filtering two parts and concatenating equals filtering the whole |

## Left out

- The deuces card encoding (`Card.new`) and `Evaluator.evaluate` are a foreign library. Cards are (rank, suit) values, and the evaluator is a parameter assumed to return scores in [1, 7462].
- The randomness of `random.shuffle` is left out. The shuffle is a parameter, and the model makes no statistical or convergence claim about the estimates.
- Floating point is left out. `wins/float(trials)` and `expected_gain` are exact `real`s, so the `-0.0` that a negative trial count gives in Python is the real 0. `str(float)` is a parameter. The reply's `float(...) * 100` percentage text and the `ValueError` that `float()` could raise are not modelled: the reply carries the three raw fields.
- File I/O is left out: opening and writing the table files, the `lookup-table-n` and `lookup-tables/lookup-table-` paths, and reading the lines. A table is the sequence of its lines.
- `print` progress logging, `argv`, and the `int()` conversions are left out. The entry point takes the opponent count and the trial count as integers (the trial count may be negative, as `int()` allows), so the default of 10000 trials is not modelled.
- Flask routing, the Twilio response object, `environ` and `app.run` are left out. A reply is a value, and the missing-`Body` case is not modelled.
- Text.Lower: only ASCII letters are lower-cased, and Text.TrimLeft / Text.TrimRight strip only ASCII whitespace. The model restricts itself to ASCII text; Unicode case and space rules are not modelled.
- The global `count` in `main` only feeds the progress message and is not modelled.
- Texter.GetRank: states the range of the result and, through the name lemmas, what each rank name maps to. It does not characterise every token that yields None.
- Texter.GetPlayers: states the range of the result and, through the name lemmas, what each count name maps to. It does not characterise every token that yields None.
- The end-to-end property from a raw message to the table statistics is not one lemma. It is `Respond`'s and `Answer`'s contracts composed with `CheckReadsGeneratedTable`.

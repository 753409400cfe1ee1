# montecarlo-sim in Dafny

A model of the Monte Carlo dice simulator in `montecarlo/montecarlo.py`. It has three classes:

- A `Die` holds distinct faces with a weight for each. It can change one weight, report its weight table and be rolled.
- A `Game` rolls each of its dice the same number of times. It keeps the table of its most recent play and hands out copies in wide or narrow (melted) form.
- An `Analyzer` reads a game's last play. It counts jackpots, combinations (order disregarded) and permutations (order kept).

The project has four modules:

- `Numerals` (`numerals.dfy`) covers the bits of Python text handling the simulator uses:
  - `str(i)` in the `dice-<i>` column names;
  - `str.isnumeric` and `float()` on a string weight.
- `Frames` (`frames.dfy`) covers the numpy and pandas operations, written as functions on values:
  - `np.unique` gives a count of distinct values;
  - `np.sort` on one row;
  - `value_counts` gives a map from each distinct key to its count;
  - the wide table and its `pd.melt`.
- `MonteCarlo` (`montecarlo.dfy`) holds the three classes.
  - `Die` and `Game` are Dafny classes whose methods update their fields in place.
  - Python exceptions become `Result`/`Outcome` values.
  - Arguments of the wrong Python type are separate constructors of small argument datatypes, e.g. `SidesArg.NotAnArray` or `FlagArg.NotBool`.
- `Scenarios` (`scenarios.dfy`) replays the repository's unit tests as client methods of the model.

Randomness is an input. `Die.Roll` and `Game.Play` take `draws`: the face indices a weighted sampler returned. The precondition `Die.IsSample` describes what the sampler can return: the weight column has no negative entry and a positive sum, and every draw is a face of positive weight. Every property below therefore holds whatever the sampler picks.

The model follows the code where the unit tests expect something else. The unit test at montecarlo_sim/montecarlo_sim_test.py:59-68 expects `jackpot()` to count the rolls in which all dice agree. The code counts the dice whose column holds a single value. See "## Findings".

`pd.melt` stacks the value columns one after another, so the narrow form is ordered die by die, and by roll within each die.

## Model

| member | source | states |
|---|---|---|
| MonteCarlo.CheckSides | montecarlo/montecarlo.py:18-22 | a non-array is a TypeError; a repeated face is a ValueError (the unique count is short of the length exactly when faces repeat); distinct faces pass unchanged |
| MonteCarlo.MakeDie | montecarlo/montecarlo.py:11-26 | Die(sides) fails exactly when the checks fail, with the same error; otherwise a fresh valid die with those faces and every weight 1 |
| MonteCarlo.Die.constructor | montecarlo/montecarlo.py:24-26 | the die keeps its faces, every weight is 1, the weights sum to the number of faces |
| MonteCarlo.SumOfOnes | montecarlo/montecarlo.py:25 | all-ones weights sum to their count |
| Frames.NumUniqueBound | montecarlo/montecarlo.py:21 | the number of distinct values is at most the length, and equal to it exactly when no value repeats |
| Frames.NumUnique | montecarlo/montecarlo.py:21 | len(np.unique(s)): the size of the set of values of s |
| Numerals.IsNumeric | montecarlo/montecarlo.py:40 | str.isnumeric on ASCII: non-empty and every character a decimal digit |
| Numerals.DigitsValue | montecarlo/montecarlo.py:43 | float() of a digit string: the number its decimal digits denote, leading zeros allowed |
| MonteCarlo.Coerce | montecarlo/montecarlo.py:38-43 | a weight converts exactly when it is a number or a numeric string; a number converts to itself; every failure is a TypeError |
| Numerals.NatToStringOfDigitsValue | montecarlo/montecarlo.py:40-43 | float() on a numeric string without leading zeros reads the number that str() writes back to the same string |
| MonteCarlo.CoerceNumeral | montecarlo/montecarlo.py:40-43 | the string str(n) is an accepted weight that converts to n |
| MonteCarlo.Die.ChangeWeight | montecarlo/montecarlo.py:36-43 | IndexError for a face not on the die, then TypeError for an unconvertible weight; a failure leaves every weight unchanged; success overwrites only that face's weight, so state() changes at that face alone and the weight sum moves by the difference |
| Frames.IndexOf | montecarlo/montecarlo.py:43 | the first position at which a face sits |
| MonteCarlo.TableUpdate | montecarlo/montecarlo.py:43 | overwriting the weight at one index changes the weight table at that index's face only |
| MonteCarlo.SumUpdate | montecarlo/montecarlo.py:43 | overwriting one weight moves the sum by new minus old |
| MonteCarlo.Table | montecarlo/montecarlo.py:25-26 | the die's weight frame indexed by side: each face with the weight at its position |
| MonteCarlo.Die.State | montecarlo/montecarlo.py:64 | the table's keys are exactly the faces, and each face maps to its weight; a map is a value, so the copy does not alias the die |
| MonteCarlo.Die.IsSample | montecarlo/montecarlo.py:54 | what sample(n, replace=True, weights=...) can return: n face indices of positive weight, and only for a weight column with no negative entry and a positive sum |
| MonteCarlo.Die.Roll | montecarlo/montecarlo.py:54 | n outcomes, each a face of the die with positive weight |
| MonteCarlo.Game.constructor | montecarlo/montecarlo.py:74-76 | the game keeps its dice in order, and the play table starts empty |
| MonteCarlo.Game.Play | montecarlo/montecarlo.py:86-89 | the old table is replaced by one column per die, in dice order, each that die's n rolls; the wide table then has n rows (none without dice); the game stays valid |
| MonteCarlo.Game.LastPlay | montecarlo/montecarlo.py:91-116 | the flag defaults to False; a non-bool flag is a ValueError; False gives the wide table with columns dice-0 .. dice-(k-1); True gives the melted table; the stored table is not changed |
| MonteCarlo.ColumnName | montecarlo/montecarlo.py:114 | the label 'dice-' + str(i) of die i's column |
| MonteCarlo.WideColumnNames | montecarlo/montecarlo.py:112-115 | k column names, name i being "dice-" + str(i), no two alike |
| Numerals.NatToString | montecarlo/montecarlo.py:114 | str(i) is a non-empty decimal numeral without a leading zero |
| Numerals.DigitsValueOfNatToString | montecarlo/montecarlo.py:114 | reading back what str(i) wrote gives i |
| Numerals.LeadingDigitPositive | montecarlo/montecarlo.py:114 | a numeral whose first digit is not 0 denotes a positive number |
| Numerals.NatToStringInjective | montecarlo/montecarlo.py:112-115 | different dice indices get different column names |
| Frames.WideRows | montecarlo/montecarlo.py:89 | pd.DataFrame(roll_outcomes) read row by row: row j holds every die's j-th roll, in dice order |
| Frames.Column | montecarlo/montecarlo.py:135 | df[c]: entry c of every row |
| Frames.WideRowsColumns | montecarlo/montecarlo.py:89 | the wide table has one row per roll and one entry per die, and its column c is die c's rolls |
| Frames.Melt | montecarlo/montecarlo.py:105-110 | the narrow table has dice times rolls rows; each row is a (roll, die) cell holding that die's outcome at that roll; rows are ordered by die, then roll, so no pair repeats |
| Frames.MeltAt | montecarlo/montecarlo.py:105-110 | every (roll, die) cell of the play appears in the narrow table, at position die * rolls + roll |
| MonteCarlo.MakeAnalyzer | montecarlo/montecarlo.py:123-126 | a non-Game is a ValueError; otherwise a fresh analyzer of that game |
| MonteCarlo.Analyzer.constructor | montecarlo/montecarlo.py:126 | the analyzer keeps its game |
| MonteCarlo.CountConstant | montecarlo/montecarlo.py:131-137 | the number of constant entries (columns for jackpot() as written, rows for the intended jackpot) is at most the number of entries |
| MonteCarlo.CountConstantExtremes | montecarlo/montecarlo.py:131-137 | the count equals the number of entries exactly when every entry is constant, and is 0 exactly when none is |
| Frames.NumUniqueOne | montecarlo/montecarlo.py:135 | a column has a single distinct value exactly when it is non-empty and constant |
| MonteCarlo.Analyzer.Jackpot | montecarlo/montecarlo.py:131-137 | the loop counts the wide table's columns with a single distinct value; at most the number of dice, and 0 before any play |
| MonteCarlo.JackpotOfOneRoll | montecarlo/montecarlo.py:134-136 | after one roll, jackpot() as written equals the number of dice, whatever was rolled |
| MonteCarlo.TwoDiceOneRoll | montecarlo/montecarlo.py:134-136 | two dice rolled once: jackpot() as written gives 2; the count of agreeing rolls gives 1 when both dice show one face and 0 otherwise |
| MonteCarlo.Analyzer.JackpotRolls | montecarlo/montecarlo.py:131-137 | the corrected jackpot: the number of rolls in which every die shows one face, at most the number of rolls |
| MonteCarlo.ForcedDiceJackpot | montecarlo/montecarlo.py:131-137 | dice forced to one face make the intended jackpot equal to the number of rolls |
| MonteCarlo.SingleDieJackpot | montecarlo/montecarlo.py:131-137 | with one die, every roll counts towards the intended jackpot |
| Frames.Insert | montecarlo/montecarlo.py:141 | inserting into a sorted row keeps it sorted and adds exactly that value |
| Frames.Sort | montecarlo/montecarlo.py:141 | np.sort of a row is sorted and a rearrangement of the row |
| Frames.SortedUnique | montecarlo/montecarlo.py:141 | two sorted rows with the same entries are equal |
| Frames.SortKey | montecarlo/montecarlo.py:141 | two rolls sort to the same key exactly when one rearranges the other |
| MonteCarlo.SortRows | montecarlo/montecarlo.py:141 | one sorted, rearranged row per roll |
| Frames.Tally | montecarlo/montecarlo.py:141-145 | value_counts: its keys are exactly the distinct rows, each mapped to its (positive) number of occurrences |
| MonteCarlo.CombosOf | montecarlo/montecarlo.py:141 | the value counts of the rows sorted one by one |
| MonteCarlo.PermutationsOf | montecarlo/montecarlo.py:145 | the value counts of the rows as they stand |
| MonteCarlo.Analyzer.Combos | montecarlo/montecarlo.py:139-142 | combos() tallies the sorted rolls of the last play |
| MonteCarlo.Analyzer.Permutations | montecarlo/montecarlo.py:144-145 | permutations() tallies the ordered rolls of the last play |
| MonteCarlo.CombosKeys | montecarlo/montecarlo.py:141 | every combos key is sorted; a sorted combination is a key exactly when some roll rearranges it |
| MonteCarlo.CombosIgnoreOrder | montecarlo/montecarlo.py:141 | rearranging faces within rolls leaves combos() unchanged |
| MonteCarlo.SortPair | montecarlo/montecarlo.py:141 | both orders of two different faces sort to the smaller face first |
| MonteCarlo.SwappedRollsOneCombo | montecarlo/montecarlo.py:139-142 | the rolls (x, y) and (y, x) share one combos key, counted twice |
| MonteCarlo.SwappedRollsTwoPermutations | montecarlo/montecarlo.py:144-145 | the rolls (x, y) and (y, x) are two permutations keys, counted once each |
| Frames.TotalTally | montecarlo/montecarlo.py:141-145 | the counts of a tally add up to the number of entries tallied |
| MonteCarlo.CountsAddUpToRolls | montecarlo/montecarlo.py:139-145 | the combos() counts and the permutations() counts each add up to the number of rolls |
| Scenarios.ChangeWeightScenario | montecarlo_sim/montecarlo_sim_test.py:13-17 | after change_weight(1, 100) on faces 1, 2, 3, state() reports 100 for face 1 and 1 for the others |
| Scenarios.GamePlayScenario | montecarlo_sim/montecarlo_sim_test.py:36-42 | two dice played 3 times give a wide table of 3 rows with columns dice-0 and dice-1, whatever is drawn |
| Scenarios.JackpotScenario | montecarlo_sim/montecarlo_sim_test.py:59-68 | for the test's loaded pair played once, jackpot() as written gives 2, and the agreeing-rolls count gives the 1 the test expects when both dice land on one face |

## Left out

- Weighted sampling: `DataFrame.sample` is a call into a random source. The model takes the sampler's picks as the `draws` parameter and keeps only what every pick satisfies: n faces, each of positive weight. The probability distribution is not modelled.
- Die.Roll: the ValueError pandas raises when sampling from a weight column with a negative entry or a zero sum (which includes a die without faces) is not modelled as an error result. `Die.IsSample` admits no draws in those cases, so `Roll` and `Game.Play` cannot be called on such a die.
- Die.Roll: the default `n=1` of `roll` is not modelled; a caller passes n.
- Floating point: weights are exact `real`s, and `float(weight)` on a numeric string returns the exact value of its digits.
- Faces are integers only. Alphabetic faces allowed by the class comment are not modelled.
- Coerce: `str.isnumeric` is modelled for ASCII digits only. Unicode numerals that Python accepts (and that `float()` may then reject) are not modelled.
- Coerce: a bool weight (an int subclass, which float() turns into 0 or 1) is not its own case; it is the `Number` 0 or 1. An object of another type that defines `__float__` is not modelled; `OtherObject` stands for the types float() rejects with a TypeError.
- pandas indexes, `set_index`, `rename` and the `DataFrame` wrapper are not modelled. Tables are sequences of columns or rows, and the wide form carries its column labels alongside. The `roll` index is the row position.
- Die.State: the weight table is a map from face to weight. The row order of the DataFrame copy is not modelled.
- Analyzer.Combos and Analyzer.Permutations: `value_counts` orders its result by descending count. The model returns a map, so that order is not modelled.
- `Analyzer.face_counts` is a stub that returns None, so it has nothing to model.
- Die.ChangeWeight: pandas chained-assignment (copy-on-write) behaviour of `self.__diedf['weights'][side] = ...` is not modelled. The write is taken to update the die's table.
- A game's dice are an immutable sequence of references, so later changes to the Python list passed to `Game()` are not modelled. Changes to the dice themselves are visible to the game, as in Python.
- The root file `montecarlo.py` (an unfinished earlier draft that does not parse) is not part of this model.
- `setup.py` (packaging) is not part of this model.
- The unit tests that only check a result's Python type are not modelled.

## Findings

| source | as written | input that shows it | evidently intended | confidence | as-written member | corrected member |
|---|---|---|---|---|---|---|
| montecarlo/montecarlo.py:134-136 | `jackpot()` counts the wide table's columns (dice) whose outcomes all agree | two dice rolled once: every column holds one value, so the count is 2, whatever was rolled (the unit test at montecarlo_sim/montecarlo_sim_test.py:59-68 expects 1) | the number of rolls in which every die shows the same face | not executed | MonteCarlo.TwoDiceOneRoll | MonteCarlo.Analyzer.JackpotRolls |

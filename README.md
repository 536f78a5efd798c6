# Word-Bandit word-finding engine in Dafny

A model of the engine behind the Word-Bandit Scrabble helper, with proofs about it. The
engine has four parts:

- **Playability.** It decides which dictionary words the letters on the shelf can spell.
- **Anchors.** It scans the board, row by row and then column by column, for *anchors*. An
  anchor is a placed tile, together with the room before and after it and the other tiles a
  word through it must match.
- **Solver.** For each anchor, it lists the dictionary words that fit.
- **Ranking.** It scores every (word, anchor position) pair on the standard premium-square
  layout and ranks the pairs by score.

The modules follow the program's files:

| module | file | what it holds |
|---|---|---|
| `Config` | `config.py` | the letter values, the premium squares as a lookup, the board size, the two direction tags, `tile_key` |
| `Playability` | `utils.py` | `is_playable` over a shelf string, a count dictionary or any other value |
| `Scoring` | `utils.py` | `score_value`: a spec function `Score`, and the loop-based method `ScoreValue` proved equal to it |
| `Ranking` | `utils.py` | Python's stable `sorted(..., reverse=True)` as an insertion sort, and `utils.sort` |
| `Matching` | `utils.py` | `get_indices_of_substr` and `fits_anchor`, as loop-based methods proved against the predicates `IsOccurrence` and `Fits` |
| `Anchors` | `utils.py` | `generate_anchors_from_slice` with `_get_prefix`, and `get_anchors`; spec functions plus methods that keep the source's loops |
| `SolverModel` | `solver.py` | the class `Solver`, its fields assigned by its constructor and methods |

Four supporting modules:

- `Wrappers` holds `Option` and `Result`.
- `Strings` holds the Python string builtins the code relies on: `count`, ASCII `lower`, `strip`, slice reversal, `find`, `in` and `str` of an integer.
- `OrderedMap` models a Python `dict` as a sequence of entries. Keys stay in first-insertion order, and assigning to a present key replaces its value in place.
- `AnchorModel` holds the anchor record.

Each raised exception is modelled as an error value:

- `is_playable` on a value that is neither a string nor a dict gives `Err(InvalidLettersType)`.
- In `score_value`:
  - a letter without a point value gives `UnknownLetter`;
  - a key that does not unpack into three fields gives `CannotUnpack`;
  - an unknown direction gives `InvalidDirection`.
- The first failing score aborts `get_ranked_results`.

The anchor position is modelled as follows:

- An inner anchor's position is the 2-tuple `(row, col)` (`utils.py:249`). It is modelled as a `Position` with no direction.
- A tail anchor's position is a 3-tuple that carries the direction (`utils.py:267`).
- An anchor without a position is keyed by `Fresh(i)`, with `i` its index in the anchor list. This stands in for `uuid.uuid4()`: distinct anchors get distinct fresh keys, and such a key never unpacks into three fields.

Cells of the board are strings, and a cell is occupied when it does not strip to `""`. The
lemmas about the anchor scan assume *well-formed* lines, whose cells hold at most one
character. The input widget enforces this, and the docstring at `utils.py:174-176` states it.

On the inner anchors, the code and its description differ. The docstring says relative
anchors capture the tiles *between* the base tile and the end point (`utils.py:202-203`).
The loop at `utils.py:240-242` also includes the tile at `p2` itself, at offset `b - a`,
while `postfix_permitted` is `b - a - 2`. The model follows the code. It proves the
consequences:

- The relative anchor always reaches two cells past the allowed postfix (`Anchors.InnerAnchorOverreaches`).
- No word ever fits an inner anchor (`Anchors.InnerAnchorNeverFits`, `SolverModel.OverreachingListsNothing`).
- On a board, every key that reaches the ranking is therefore a 3-tuple with a direction, so the ranking can fail only on a letter without a point value (`SolverModel.BoardRankingFailsOnlyOnUnknownLetters`).

## Model

| member | source | states |
|---|---|---|
| Config.PointsTable | config.py:2 | the letter values cover exactly `a`..`z`, each worth 1 to 10 points |
| Config.MultipliersOnBoard | config.py:4-33 | every premium square is a 1-based square of the 15 x 15 board |
| Config.MultipliersSymmetric | config.py:4-33 | the premium layout is symmetric under (r, c) -> (c, r) |
| Config.CentreAndCorners | config.py:6-15 | (8, 8) is a double-word square; the four corners are triple-word squares |
| Config.DirectionTagsDistinct | config.py:45-46 | the horizontal and vertical tags are different strings, so the two placement branches are disjoint |
| Config.TileKey | config.py:50-51 | the key is `R`, the row's digits, `C`, the column's digits |
| Config.TileKeyInjective | config.py:50-51 | distinct cells get distinct keys |
| Strings.CountIsMultiplicity | utils.py:28-30 | `str.count` of a character is its multiplicity in the string's multiset |
| Strings.Find | utils.py:103 | `find(sub, start)` is the least occurrence at or after `start`, or -1 when there is none |
| Strings.Contains | solver.py:40 | `sub in s` holds iff `sub` occurs at some index |
| Strings.Lower | solver.py:9-10 | lower-casing keeps the length; each upper-case letter becomes its lower-case counterpart (code point + 32); every other character is unchanged |
| Strings.StripBlank | utils.py:225-227 | a cell strips to the empty string iff it is all whitespace |
| Strings.IntToStringInjective | config.py:51 | distinct integers print differently |
| Playability.CountMap | utils.py:28-30 | the count dictionary has a key exactly for each character present, mapped to its count |
| Playability.CoveredFromMeaning | utils.py:31-37 | the loop answers true iff every character of the word is a key with at least the word's count |
| Playability.IsPlayable | utils.py:24-37 | errors iff `letters` is neither a string nor a dict; with a dict, true iff every character of the word is a key whose count covers the word's |
| Playability.ShelfPlayableIffSubMultiset | utils.py:27-37 | with a shelf string, playable iff the word's letters are a sub-multiset of the shelf's |
| Scoring.BaseScore | utils.py:60-61 | the plain score succeeds iff every letter has a value, and is then 1 to 10 points per letter; otherwise it fails on the first unknown letter |
| Scoring.BaseScoreAdditive | utils.py:61 | the plain score of a concatenation is the sum of the plain scores |
| Scoring.ScoreValue | utils.py:60-91 | the walking loop computes `Score`: the plain sum without a placement; `CannotUnpack` for a key without three fields; squares from the anchor along the tag; `InvalidDirection` otherwise |
| Scoring.WordFactorPositive | utils.py:73-83 | the word multiplier is at least 1 |
| Scoring.LetterTotalAtLeastBase | utils.py:76-89 | the letter total with premiums is at least the plain score |
| Scoring.PlacedScoreAtLeastBase | utils.py:73-91 | a placed word that can be scored scores at least its plain score |
| Scoring.PlainSquaresScoreBase | utils.py:76-91 | a word covering only plain squares scores exactly its plain score |
| Scoring.SamePremiumsSameScore | utils.py:76-91 | two placements over the same sequence of premiums give the same totals and factors |
| Scoring.TransposedPlacementSameScore | utils.py:66-69 | playing horizontally from (r, c) scores the same as playing vertically from (c, r) |
| Scoring.CentreCatScore | utils.py:63-91 | "cat" played horizontally from the centre star scores 10 |
| Ranking.SortDescSorted | solver.py:72 | the descending sort yields non-increasing keys |
| Ranking.SortDescPermutation | solver.py:72 | the descending sort only reorders: same multiset |
| Ranking.SortDescStable | solver.py:72 | elements with equal keys keep their original order |
| Ranking.SortByScoreMeaning | utils.py:93-96 | `sort` succeeds iff every word can be scored, and then returns a permutation by non-increasing plain score, ties in list order; otherwise it fails on the first unscorable word's first unknown letter |
| Matching.IndicesOfSubstr | utils.py:98-109 | the result holds exactly the start indices of `sub` in `s`, overlaps included, strictly ascending |
| Matching.FitsAnchor | utils.py:141-164 | true iff some occurrence has its prefix and postfix lengths within bounds and every relative anchor inside the word at its offset |
| Matching.ChatsFitsAt | utils.py:111-164 | "at" fits "chats" with 2 characters before and 1 after allowed up to 2 |
| Matching.ReachBeyondPostfixNeverFits | utils.py:146-159 | a relative anchor ending past the room the postfix bound allows makes every word fail |
| Anchors.OccupiedIffStripped | utils.py:225-227 | a cell is occupied iff it strips to a non-empty string |
| Anchors.Positions | utils.py:223-228 | every tile is at an index of the line |
| Anchors.PositionsAscending | utils.py:223-228 | the tiles come in strictly ascending index order |
| Anchors.PositionsLetters | utils.py:223-228 | each tile carries its cell's stripped text, which is non-empty, and its cell is occupied |
| Anchors.PositionsAreOccupiedCells | utils.py:223-228 | a cell is occupied iff its index is among the tile indices |
| Anchors.CollectPositions | utils.py:223-228 | the scanning loop computes `Positions` |
| Anchors.GetPrefix | utils.py:209-217 | the walking-back loop computes `PrefixRun` |
| Anchors.RunStart | utils.py:213 | the start of the run of occupied cells ending just before `i`: every cell of the run is occupied and the cell before it is not |
| Anchors.PrefixRunIsRun | utils.py:209-217 | on a well-formed line, the prefix is the run of occupied cells just before the tile, in board order |
| Anchors.PrefixRunLength | utils.py:209-217 | on a well-formed line, the prefix's length is the run's length, so its relative anchor starts at the run's first cell |
| Anchors.PairRelativeAnchors | utils.py:239-242 | the loop builds the relative anchors of the tiles `p1+1..p2` at their offsets |
| Anchors.PairAnchor | utils.py:237-254 | one pass of the `while p2` body computes `InnerAnchor` |
| Anchors.BaseTileAnchors | utils.py:231-256 | the `while p2` loop for one base tile computes its inner anchors in order |
| Anchors.OpenTailAnchor | utils.py:258-272 | the final check computes `TailAnchor` |
| Anchors.GenerateAnchorsFromSlice | utils.py:166-274 | the scan computes `SliceAnchors`: the inner anchors of each base tile in turn, then the tail anchor |
| Anchors.GapBeforeTileIsEmpty | utils.py:223-228 | the cells between two consecutive tiles are empty |
| Anchors.InnerAnchorExistsIff | utils.py:237-244 | an inner anchor is emitted iff p1 < p2, the tiles are at least 3 apart and the cell two before `p2`'s tile is empty |
| Anchors.InnerAnchorOverreaches | utils.py:237-254 | an inner anchor lists `p2`'s tile at offset b - a among its relative anchors, but allows only b - a - 2 cells after its letter |
| Anchors.InnerAnchorNeverFits | utils.py:239-253 | on a well-formed line, no word fits an inner anchor, whatever the other bounds |
| Anchors.TailAnchorExistsIff | utils.py:259 | a tail anchor is emitted iff the line has a tile and its last cell is empty |
| Anchors.TailAnchorSpan | utils.py:259-272 | the tail anchor's tile is the last occupied cell, every cell after it is empty, its postfix room reaches the end of the line, and it carries the line's direction tag |
| Anchors.SingleTileLine | utils.py:258-272 | a line whose only tile is at t, before the last cell, yields exactly the tail anchor: prefix room t, postfix room to the end, no relative anchors |
| Anchors.SingleTileAtSeven | utils.py:166-274 | one tile at index 7 of a 15-cell row yields one anchor at (1, 8), horizontal, prefix and postfix room 7 |
| Anchors.SliceAnchorsScanned | utils.py:248-272 | every anchor of a well-formed line sits on that line (1-based), carries no tag or the line's tag, and overreaches when untagged |
| Anchors.Transpose | utils.py:283 | there are as many columns as the shortest row has cells (none for an empty grid); column j holds cell j of every row |
| Anchors.TransposeBoard | utils.py:283 | the columns of a 15 x 15 board of one-character cells are 15 lines of 15 one-character cells |
| Anchors.ScanLines | utils.py:280-281 | one accumulation loop computes the anchors of every line in order |
| Anchors.GetAnchors | utils.py:276-287 | the result is the row anchors followed by the column anchors |
| Anchors.LinesAnchorsFromLines | utils.py:280-285 | every anchor of a scan of several lines comes out of the scan of one of them |
| Anchors.LinesAnchorsCoverLines | utils.py:280-285 | every anchor of the scan of one line is among the anchors of the whole scan |
| Anchors.LinesAnchorsScanned | utils.py:280-285 | every anchor of a scan of well-formed lines sits on the line it came from, carries no tag or the scan's tag, and overreaches when untagged |
| Anchors.LinesAnchorsOnBoard | utils.py:280-285 | every anchor of a scan of 15 well-formed lines of 15 cells is on the board, with the scan's tag or none, and overreaches when untagged |
| Anchors.GridAnchorsOnBoard | utils.py:276-287 | on a 15 x 15 board, there are 15 columns; every anchor is on the board; row anchors are horizontal or untagged; column anchors are vertical or untagged; untagged anchors overreach |
| OrderedMap.PutLookup | solver.py:61 | after `res[k] = v`, `k` maps to `v` and every other key keeps its value |
| OrderedMap.PutMeaning | solver.py:61 | `res[k] = v` keeps keys distinct, keeps a present key's place or appends a new one, maps `k` to `v` and leaves every other key alone |
| SolverModel.Solver.constructor | solver.py:7-14 | the shelf and the anchors' letters are lower-cased, the dictionary stored, and both word lists computed from them |
| SolverModel.LowerLettersMeaning | solver.py:10 | only `letters` changes: it is present and is the old letters (empty when absent) lower-cased character by character, so it has no upper-case letter; relative-anchor letters are untouched |
| SolverModel.Solver.GetAllPlayableWords | solver.py:16-17 | a word is listed iff it is in the dictionary and its letters are a sub-multiset of the shelf |
| SolverModel.PlayableWordsAppend | solver.py:17 | the filter keeps dictionary order |
| SolverModel.Solver.GetAnchoredPlayableWords | solver.py:19-63 | the loop over anchors computes `AnchoredWords` from shelf, anchors and dictionary alone |
| SolverModel.Solver.AnchorWordList | solver.py:21-57 | the loop over the dictionary computes the anchor's word list |
| SolverModel.AnchorWordsMeaning | solver.py:33-57 | a word is listed iff it is in the dictionary and passes the five tests (missing bounds read as 15 and 0); playable means covered by shelf + letters + relative-anchor letters |
| SolverModel.AnchorWordsAppend | solver.py:34-57 | an anchor's word list keeps dictionary order |
| SolverModel.GroupedDistinct | solver.py:59-61 | the dictionary built from the anchors' keys and word lists (`AnchoredWords`) has distinct keys and no empty word list |
| SolverModel.GroupedKeys | solver.py:20-61 | a key is present iff some anchor with that key lists a word |
| SolverModel.GroupedKeysGrow | solver.py:61 | keys only join at the end: a replaced key keeps its original slot |
| SolverModel.GroupedLastWins | solver.py:61 | a key maps to the list of the last anchor with that key that lists a word |
| SolverModel.Solver.GetRankedResults | solver.py:65-75 | scoring, sorting and numbering compute `RankedResults` of the stored dictionary |
| SolverModel.ScoreAllEntries | solver.py:66-69 | the nested scoring loops compute every entry's score in dictionary order, stopping at the first failure |
| SolverModel.ScoreWords | solver.py:68-69 | the inner loop extends the scored entries by one key's words |
| SolverModel.ScoreEntriesMeaning | solver.py:66-69 | scoring succeeds iff every pair scores, and then pairs each word and key with `score_value(word, key)`; otherwise it yields the first failing pair's error |
| SolverModel.RankedResultsFails | solver.py:65-75 | the ranking succeeds iff every (word, key) pair scores; otherwise it yields the first failure's error |
| SolverModel.RankLinesMeaning | solver.py:72-73 | numbering the stably sorted pairs gives ranks 1..n over non-increasing scores; dropping the ranks gives back the sorted pairs, a reordering of the scored ones with equal scores in their original order |
| SolverModel.RankedResultsMeaning | solver.py:65-75 | one line per pair, ranks 1..n, non-increasing scores, each line with its own score, the pairs only reordered, equal scores in dictionary order |
| SolverModel.EntriesKeys | solver.py:67-69 | every scored pair's key is a key of the dictionary |
| SolverModel.OverreachingListsNothing | solver.py:54-55 | an anchor whose relative anchor overreaches its postfix room lists no word |
| SolverModel.LowerLettersPlaceable | solver.py:10 | lower-casing keeps anchors on the board, their tags and their overreach |
| SolverModel.PlaceableAnchorsPlacedKeys | solver.py:59-61 | from board-scan anchors, every key of the result is a board square with a direction tag |
| SolverModel.PlacedKeysFailOnlyOnUnknownLetters | solver.py:69 | with such keys, ranking can fail only on a letter without a value |
| SolverModel.BoardRankingFailsOnlyOnUnknownLetters | solver.py:65-75 | for the anchors of a 15 x 15 board, every key is a tagged board square and the ranking fails only on unknown letters |

## Left out

- `load_words` (file I/O): the dictionary is a parameter of the constructor.
- `get_grid` and `set_grid` (Streamlit session state): the board is a parameter of `GetAnchors`.
- `app.py` and `css.py`: the user interface and its styling.
- The text of the result lines (the f-string at `solver.py:73`): a ranking line is the record (rank, word, score, position). The formatting itself cannot fail on keys that have already scored.
- `MULTIPLIER_COLORS`, `PIXEL_COUNT_PER_TILE`, `SCRABBLE_SHELF_NAME`, `WORDS_FILE`: presentation and file-name constants.
- Unicode behaviour of `str.lower` and `str.strip`: lower-casing covers `A`-`Z`, and stripping covers ASCII whitespace and the four ASCII separator controls.
- `uuid.uuid4()`: the fresh key of an anchor without a position is `Fresh(i)`, with `i` the anchor's index. This keeps fresh keys distinct from one another and from positions, but makes the method deterministic.
- `SCORE_MULTIPLIERS` is a lookup function, not a dictionary. Its `.get` returns `None` off the table, exactly as the function does.
- Python's dynamic typing: an anchor is a record whose optional fields stand for absent dictionary keys. Values of the wrong type in them (a string where a number is expected, say) are not modelled.
- Mutable default arguments and aliasing of the caller's anchors: the constructor copies each anchor into a new record, as the comprehension at `solver.py:10` does.
- Anchors.PrefixRunIsRun, Anchors.InnerAnchorNeverFits, Anchors.SliceAnchorsScanned, Anchors.LinesAnchorsScanned, Anchors.LinesAnchorsOnBoard, Anchors.TransposeBoard, Anchors.GridAnchorsOnBoard: stated only for well-formed lines (cells of at most one character), the board the input widget produces. With longer cells, the postfix arithmetic of inner anchors differs.
- Anchors.GenerateAnchorsFromSlice, Solver.GetRankedResults: each loop of the source is kept, but a nested loop body sits in a helper method of its own (`BaseTileAnchors`, `PairAnchor`, `ScoreAllEntries`, `ScoreWords`) so that each proof stays small.

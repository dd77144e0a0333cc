# wx-game in Dafny

A model of the WeChat mini-game *wx-game*: three Chinese-character puzzles and the code around them.

- **The puzzles.** 国风找成语 is a word search: tap the four glyphs of an idiom on a shuffled grid. 汉字找不同 is spot the difference: find the one glyph that differs from the rest of the grid. 诗词连线 joins poetry lines: connect each upper line of a couplet to its lower line.
- **The game page.** It drives a puzzle: it loads the level, starts the countdown, routes taps, applies penalties and reports the score.
- **The result page.** It reads the outcome back from its query and sends the player on to the next level.
- **The client's request layer.** It signs requests, retries them on a server error or a timeout, and builds the level query.
- **The client's helpers.** The client's countdown, its time-limit table, the theme package and the hidden-game unlock rule.
- **The server's models.** The server's level-table model picks a random row and turns it into a level payload. The server's user-table model keeps unlocks, best scores and progress.
- **The dedup script.** An offline script removes repeated poetry couplets from the three difficulty pools.

Each source file is one module:

- `common.dfy`: values shared by all modules. These are `Option`/`Result`, a JSON value, clamping, `Math.floor`/`Math.ceil`, decimal text and `parseInt`, and `indexOf`.
- `shuffle.dfy`: the in-place Fisher–Yates shuffle the puzzles use.
- `grid.dfy`: the cell layout and hit test shared by the two grid puzzles.
- `word_find.dfy`, `char_diff.dfy`, `poetry_connect.dfy`: the three puzzles.
- `composite_score.dfy`, `composite_score_template.dfy`: the two composite-score templates.
- `timer.dfy`: the countdown.
- `game_page.dfy`: the game page.
- `result_page.dfy`: the result page.
- `api.dfy`: the request layer.
- `level_model.dfy`: the server's level table.
- `user_model.dfy`: the server's user table.
- `theme_package.dfy`: the theme package.
- `hidden_game.dfy`: the hidden-game unlock rule.
- `dedup_poetry.dfy`: the poetry dedup script.

**How the models are built.**

- Objects that the source mutates (the puzzle logics, the timer, the game page, the user store) are classes.
  - Their methods are proved against a pure step function: `State()` after the call equals the step function applied to `State()` before it.
  - The properties are then proved about the step functions.
- The source's loops are methods with loop invariants. Each is tied to a specification function.
- Randomness is an input:
  - `Math.random()` draws are sequences of picks;
  - shuffles are sequences of swap indices.
- The clock is an input: `Date.now()` is a parameter `now`.
- Callbacks into the mini-game runtime are inputs or outcomes. `requestAnimationFrame` handles, `wx.request` replies and the database's answers are parameters or results.

## Model

| member | source | states |
|---|---|---|
| Common.Clamp | minigame/gameLogic/compositeScore.js:116 | `Math.max(lo, Math.min(hi, x))` is at least `lo`, at most `hi` when `lo <= hi`, and is `x` itself when `x` is in range |
| Common.Floor | minigame/gameLogic/compositeScore.js:112 | `Math.floor(x)` is the integer `r` with `r <= x < r + 1` |
| Common.FloorMonotone | minigame/gameLogic/compositeScore.js:112 | `Math.floor` never decreases |
| Common.Ceil | minigame/utils/timer.js:83 | `Math.ceil(x)` is the integer `r` with `x <= r < x + 1` |
| Common.IntToString | minigame/pages/result/result.js:46-48 | `String(i)` is the decimal digits of `i`, with a leading `-` for a negative number |
| Common.IntToStringInjective | minigame/gameLogic/charDiff.js:87 | different integers have different decimal texts, so text keys built from them are distinct |
| Common.ParseIntRoundTrip | minigame/pages/result/result.js:36-40 | `parseInt(String(i), 10)` gives back `i` for every integer |
| Common.DigitPrefixLength | minigame/pages/result/result.js:36 | `parseInt` reads exactly the longest run of leading digits |
| Common.HasSubstringIff | minigame/utils/api.js:75 | `s.indexOf(sub) >= 0` holds exactly when `sub` occurs in `s` at some position |
| Common.NoDupCardinality | minigame/gameLogic/charDiff.js:96-105 | a list without repetitions, such as the wrong-cell list, has as many distinct elements as entries |
| Shuffle.Swap | minigame/gameLogic/wordFind.js:52 | the swap exchanges the two entries and leaves every other entry alone |
| Shuffle.FisherYatesPermutes | minigame/gameLogic/wordFind.js:50-53 | the shuffle keeps the length and the multiset of entries, so it is a permutation |
| Shuffle.FisherYatesKeepsNoDup | minigame/gameLogic/poetryConnect.js:44-47 | shuffling a list without repetitions leaves it without repetitions |
| Shuffle.ShuffleInPlace | minigame/gameLogic/wordFind.js:50-53 | the loop `for (i = n - 1; i > 0; i--) swap(i, j)` on the array yields the specified shuffle of the old contents, a permutation of them |
| Grid.GridLayout | minigame/gameLogic/wordFind.js:56-70 | the build loops give `rows * cols` cell records; the record at `r * cols + c` holds row `r`, column `c`, the origins `c * (cellSize + gap)` and `r * (cellSize + gap)`, and the glyph `matrix[r][c]` |
| Grid.SpansDisjoint | minigame/gameLogic/wordFind.js:11 | with a positive gap, a coordinate lies in at most one row span and at most one column span |
| Grid.CellsDisjoint | minigame/gameLogic/wordFind.js:260 | with a positive gap, a point lies in at most one cell box |
| Grid.PlacedHit | minigame/gameLogic/wordFind.js:255-260 | a cell record's box test is the same as testing the point against the box of its row and column |
| Grid.FindCell | minigame/gameLogic/wordFind.js:252-270 | the scan returns the first record whose box holds the point, or -1 when none does |
| Grid.CellByPoint | minigame/gameLogic/wordFind.js:249-273 | the hit is an in-range cell whose box holds the point, and with a positive gap the only one; `null` exactly when no cell holds the point |
| Grid.RowSlice | minigame/gameLogic/wordFind.js:59 | row `r` of the grid is the slice of the flat list at indices `r * cols` up to `(r + 1) * cols` |
| Grid.OriginsSpread | minigame/gameLogic/wordFind.js:64-65 | cells of later rows or columns start at least a cell plus a gap further on |
| WordFind.DifficultyOrDefault | minigame/gameLogic/wordFind.js:26 | an empty difficulty becomes `easy`, and any other is kept |
| WordFind.ConfigFor | minigame/gameLogic/wordFind.js:14-27 | the board size is an entry of the table, positive and at most 35 cells |
| WordFind.UnknownDifficultyIsEasy | minigame/gameLogic/wordFind.js:27 | any difficulty missing from the table, `hell` among them, plays the 4 x 4 board with 72-pixel cells |
| WordFind.Without | minigame/gameLogic/wordFind.js:43 | the filler pool holds exactly the glyphs of `FILLER_POOL` that are not in the answer, and no more of them |
| WordFind.WithoutAppend | minigame/gameLogic/wordFind.js:43 | the filter keeps order and multiplicity: it distributes over concatenation, and a single glyph stays exactly when the answer lacks it |
| WordFind.Fillers | minigame/gameLogic/wordFind.js:46-48 | the fill loop appends one pool entry per draw |
| WordFind.FillersAvoidAnswer | minigame/gameLogic/wordFind.js:43-48 | no filler glyph occurs in the answer |
| WordFind.Spelled | minigame/gameLogic/wordFind.js:92-93 | the spelled word has one glyph per selected cell, in tap order |
| WordFind.IndexOf | minigame/gameLogic/wordFind.js:81-84 | the position of the first selection entry for the cell, or -1 when the cell is not selected |
| WordFind.RemoveAt | minigame/gameLogic/wordFind.js:86 | `splice(k, 1)` drops entry `k` and keeps the others in order |
| WordFind.SolvedScore | minigame/gameLogic/wordFind.js:105-107 | a solved board scores at least 10 and at most 100, and exactly 100 when no tap was wasted |
| WordFind.TapKeepsSelectionValid | minigame/gameLogic/wordFind.js:73-115 | every tap keeps the selection to at most four distinct on-board cells, each carrying its own glyph |
| WordFind.TapRejected | minigame/gameLogic/wordFind.js:79-89 | a tap is refused exactly when it is off the board, or when it is a new cell and four are already selected; a refused tap changes nothing |
| WordFind.TapDeselects | minigame/gameLogic/wordFind.js:85-88 | tapping a selected cell removes exactly that cell, keeps the others, and leaves taps, errors and score alone |
| WordFind.RemoveAtMembers | minigame/gameLogic/wordFind.js:86 | in a selection holding each cell once, removing a cell's entry removes exactly the entries for that cell |
| WordFind.TapAppends | minigame/gameLogic/wordFind.js:90-114 | a new cell is appended with its glyph and counts one tap. The board is complete exactly when the selection spells the answer. One error is counted exactly when four cells spell something else. A completed board scores within [10, 100] |
| WordFind.WordFindLogic.constructor | minigame/gameLogic/wordFind.js:23-39 | the board is the Fisher–Yates shuffle of the answer padded with fillers, a permutation of those glyphs, sized by the difficulty; nothing is selected and nothing counted |
| WordFind.WordFindLogic.InitMatrix | minigame/gameLogic/wordFind.js:41-71 | the new grid flattens to the shuffle of the padded answer, its glyphs are the answer's and the fillers', and the rest of the object is unchanged |
| WordFind.WordFindLogic.TapCell | minigame/gameLogic/wordFind.js:73-115 | the new progress and the result are those of the tap step, and the board is unchanged |
| WordFind.WordFindLogic.ClearSelection | minigame/pages/game/game.js:589-592 | the page's reset empties the selection and keeps the counters |
| WordFind.WordFindLogic.GetCellByPoint | minigame/gameLogic/wordFind.js:249-273 | the hit is the unique cell whose box holds the point; `null` exactly when no cell does |
| WordFind.WordFindLogic.CalcFinalScore | minigame/gameLogic/wordFind.js:125-137 | the final score of the object's wrong count, within [10, 100] |
| WordFind.BuildBoard | minigame/gameLogic/wordFind.js:41-71 | pad, shuffle and cut: a grid whose flat list is the shuffle of the padded answer, with its cell layout |
| WordFind.PadWithFillers | minigame/gameLogic/wordFind.js:44-48 | the fill loop yields the answer followed by the drawn fillers, exactly one board long |
| WordFind.ShuffleAndCut | minigame/gameLogic/wordFind.js:50-70 | the grid's flat list is the shuffle of the padded glyphs, a permutation of them |
| WordFind.CutIntoRows | minigame/gameLogic/wordFind.js:54-70 | the build loops cut the flat list into `rows` rows of `cols` glyphs and lay out one cell per glyph |
| WordFind.BuildRow | minigame/gameLogic/wordFind.js:57-68 | the inner loop builds one row slice and its cell records |
| WordFind.TapOnBoard | minigame/gameLogic/wordFind.js:73-115 | the three loops of `tapCell` together compute the tap step |
| WordFind.FindPosition | minigame/gameLogic/wordFind.js:76-79 | the index of the cell record at the position, or -1 when there is none |
| WordFind.FindSelected | minigame/gameLogic/wordFind.js:81-84 | the loop finds the first selection entry for the cell |
| WordFind.SpellSelection | minigame/gameLogic/wordFind.js:92-93 | the loop concatenates the selected glyphs |
| WordFind.FinalScore | minigame/gameLogic/wordFind.js:125-137 | the speed-oriented final score is always within [10, 100] |
| WordFind.ScoreBreakdown | minigame/gameLogic/wordFind.js:144-160 | the total is the final score and the clamp of the parts; the base is 100; the time bonus is the floor of 1.2 per second left and the time penalty the floor of the seconds used, which add up to the budget with the time left; the error penalty is 8 per error |
| WordFind.FinalScoreMonotone | minigame/gameLogic/wordFind.js:125-137 | more errors never raise the score, more time left never lowers it, and an error-free instant solve scores 100 |
| CharDiff.DifficultyOrDefault | minigame/gameLogic/charDiff.js:23 | an empty difficulty becomes `normal`, and any other is kept |
| CharDiff.ConfigFor | minigame/gameLogic/charDiff.js:14-24 | a listed difficulty gets its table entry and any other the `normal` entry; every board has positive rows, columns and cell size |
| CharDiff.ConfigTable | minigame/gameLogic/charDiff.js:14-24 | an unknown difficulty plays the 4 x 4 board with 68-pixel cells, `hell` the 5-column, 8-row board, and a missing difficulty the `normal` board |
| CharDiff.GenerateMatrix | minigame/gameLogic/charDiff.js:51-69 | the build loops give a `rows` x `cols` grid holding the base glyph everywhere except the drawn cell `(dr, dc)`, which holds the different glyph |
| CharDiff.BuildCells | minigame/gameLogic/charDiff.js:71-83 | the cell records are the shared grid layout of the matrix with the 4-pixel gap |
| CharDiff.KeyInjective | minigame/gameLogic/charDiff.js:87 | two taps have the same `row + ',' + col` key only when they hit the same row and column |
| CharDiff.TapHit | minigame/gameLogic/charDiff.js:85-107 | tapping the different cell reveals it, leaves the wrong list alone and reports a hit with the current wrong count |
| CharDiff.TapMiss | minigame/gameLogic/charDiff.js:94-107 | a miss is reported as repeated exactly when its key is already listed; a new key is appended once; the reported wrong count is the list's length |
| CharDiff.TapKeepsWrongListValid | minigame/gameLogic/charDiff.js:96-100 | every tap keeps the wrong list free of repetitions and free of the different cell's key |
| CharDiff.RunTapsWrongKeys | minigame/gameLogic/charDiff.js:85-108 | after any sequence of taps the wrong list holds exactly the keys of the missed cells |
| CharDiff.RunTapsCountsDistinctMisses | minigame/gameLogic/charDiff.js:96-105 | from a fresh board, the wrong count is the number of distinct cells missed, however often each was tapped |
| CharDiff.CalcScoreBounds | minigame/gameLogic/charDiff.js:117-124 | the accuracy score is never below 10, never above 100 for a non-negative time, 100 for an error-free instant find, and never rises with more errors or more time |
| CharDiff.FinalScore | minigame/gameLogic/charDiff.js:131-134 | the final score is the accuracy score of the time used, within [10, 100] when the time left does not exceed the total |
| CharDiff.ScoreBreakdown | minigame/gameLogic/charDiff.js:141-154 | the total is the final score and the floor-10 clamp of the parts; the time penalty is the floor of 1.5 per second used; the error penalty is 12 per listed miss |
| CharDiff.CharDiffLogic.constructor | minigame/gameLogic/charDiff.js:21-49 | the board size follows the difficulty; a supplied matrix and difference cell are kept, otherwise a generated grid differs at the drawn cell; nothing is revealed or listed |
| CharDiff.NewCharDiff | minigame/gameLogic/charDiff.js:30-36 | construction fails exactly when the base or the different glyph is missing, and otherwise yields a fresh, untouched board |
| CharDiff.CharDiffLogic.Tap | minigame/gameLogic/charDiff.js:85-108 | the new progress and the report are those of the tap step; the board is unchanged |
| CharDiff.CharDiffLogic.GetCellByPoint | minigame/gameLogic/charDiff.js:156-165 | the hit is an on-board cell whose box holds the point, and the only one; `null` exactly when no cell holds the point |
| CharDiff.CharDiffLogic.CalcFinalScore | minigame/gameLogic/charDiff.js:131-134 | the accuracy score of the listed misses and the time used, within [10, 100] when the time left does not exceed the total |
| PoetryConnect.Column | minigame/gameLogic/poetryConnect.js:39-42 | the split keeps, in their original order, exactly the indices of the upper (or of the lower) items |
| PoetryConnect.MetricsFor | minigame/gameLogic/poetryConnect.js:49-55 | up to 3 couplets use 48-pixel rows in 160-pixel columns, up to 5 use 40 and 150, more use 34 and 130 with a 6-pixel gap |
| PoetryConnect.SplitColumns | minigame/gameLogic/poetryConnect.js:37-42 | the split loop computes the two columns |
| PoetryConnect.ColumnNoDup | minigame/gameLogic/poetryConnect.js:39-42 | a column lists each item at most once |
| PoetryConnect.ShuffleColumn | minigame/gameLogic/poetryConnect.js:44-47 | the lower column is Fisher–Yates shuffled: a permutation of the lower items without repetitions |
| PoetryConnect.PlaceUpper | minigame/gameLogic/poetryConnect.js:57-64 | the `a`-th upper item gets the `a`-th box of the left column; lower items are untouched |
| PoetryConnect.PlaceLower | minigame/gameLogic/poetryConnect.js:65-72 | the `b`-th item of the shuffled lower column gets the `b`-th box of the right column; upper items are untouched |
| PoetryConnect.PlaceColumns | minigame/gameLogic/poetryConnect.js:49-72 | the two placement loops lay out every item |
| PoetryConnect.BuildPositions | minigame/gameLogic/poetryConnect.js:36-73 | the upper items sit in the left column in their order and the shuffled lower items in the right column, with the sizes of the couplet count |
| PoetryConnect.HitIsUnique | minigame/gameLogic/poetryConnect.js:57-78 | in the layout no point lies in two item boxes |
| PoetryConnect.LowerRank | minigame/gameLogic/poetryConnect.js:65-72 | every lower item has a rank in the shuffled column and sits in that rank's box |
| PoetryConnect.ItemByPoint | minigame/gameLogic/poetryConnect.js:75-83 | the scan returns the first item whose box holds the point, or `null` when none does |
| PoetryConnect.StartValid | minigame/gameLogic/poetryConnect.js:27-31 | a fresh puzzle satisfies the progress invariant |
| PoetryConnect.TapKeepsValid | minigame/gameLogic/poetryConnect.js:85-120 | every tap keeps the invariant: connections are declared pairs of two ids, no id is an end of two connections, the selection is never connected, and completion means as many connections as upper items |
| PoetryConnect.TapAlready | minigame/gameLogic/poetryConnect.js:87-91 | tapping a connected item changes nothing and reports `already` |
| PoetryConnect.TapSelectClear | minigame/gameLogic/poetryConnect.js:92-99 | with nothing selected a tap selects the item; tapping the selected item clears the selection |
| PoetryConnect.TapResolves | minigame/gameLogic/poetryConnect.js:100-119 | a second item clears the selection; it connects exactly when the two form a declared pair in either order, appending the connection and setting completion; otherwise it counts one wrong attempt and changes nothing else |
| PoetryConnect.SelectThenTap | minigame/gameLogic/poetryConnect.js:92-119 | selecting one free item and tapping another connects them exactly when they are a pair, and otherwise leaves both free and counts a wrong attempt |
| PoetryConnect.FindConnected | minigame/gameLogic/poetryConnect.js:87-91 | the loop finds whether the id is an end of some connection |
| PoetryConnect.FindPair | minigame/gameLogic/poetryConnect.js:102-106 | the loop finds whether the two ids are a declared pair, in either order |
| PoetryConnect.CountUpper | minigame/gameLogic/poetryConnect.js:109-112 | the loop counts the upper items |
| PoetryConnect.TapOnItems | minigame/gameLogic/poetryConnect.js:85-120 | the loops of `tapItem` together compute the tap step |
| PoetryConnect.CalcScoreBounds | minigame/gameLogic/poetryConnect.js:128-135 | the score is never below 10, never above 100 for a non-negative time, 100 for a flawless instant solve, and never rises with more errors or more time |
| PoetryConnect.FinalScore | minigame/gameLogic/poetryConnect.js:142-145 | the final score is the score of the time used, within [10, 100] when the time left does not exceed the total |
| PoetryConnect.ScoreBreakdown | minigame/gameLogic/poetryConnect.js:152-165 | the total is the final score and the floor-10 clamp of the parts; the time penalty is the floor of 0.6 per second used; the error penalty is 10 per wrong attempt |
| PoetryConnect.PoetryConnectLogic.constructor | minigame/gameLogic/poetryConnect.js:14-34 | an empty difficulty becomes `easy`; the items and pairs are kept, the lower column is the shuffle, and the puzzle starts with no connection, no selection and no errors |
| PoetryConnect.NewPoetryConnect | minigame/gameLogic/poetryConnect.js:19-25 | construction fails exactly when the items or the pairs are missing |
| PoetryConnect.PoetryConnectLogic.TapItem | minigame/gameLogic/poetryConnect.js:85-120 | the new progress and the report are those of the tap step; items, pairs and layout are unchanged |
| PoetryConnect.PoetryConnectLogic.GetItemByPoint | minigame/gameLogic/poetryConnect.js:75-83 | the hit is an item whose box holds the point, and the only one; `null` exactly when no item's box does |
| PoetryConnect.PoetryConnectLogic.CalcFinalScore | minigame/gameLogic/poetryConnect.js:142-145 | the score of the wrong attempts and the time used, within [10, 100] when the time left does not exceed the total |
| CompositeScore.Formula | minigame/gameLogic/compositeScore.js:109-119 | the composite score is never below the configured floor, and never above the ceiling when the floor does not exceed it |
| CompositeScore.FormulaMonotone | minigame/gameLogic/compositeScore.js:109-119 | for a configuration with non-negative rates, more errors never raise the score and more time left never lowers it |
| CompositeScore.RawScoreMonotone | minigame/gameLogic/compositeScore.js:111-115 | the unclamped score falls with errors and rises with time left |
| CompositeScore.ClampMonotone | minigame/gameLogic/compositeScore.js:116 | clamping keeps the order of two scores |
| CompositeScore.FlawlessScoresCeiling | minigame/gameLogic/compositeScore.js:109-119 | with no error and no negative time left, every well-formed configuration gives the ceiling score |
| CompositeScore.GetConfig | minigame/gameLogic/compositeScore.js:51-76 | a listed difficulty gets its configuration and any other the `normal` one; every configuration scores within [10, 100], and only `hard` charges 10 per error instead of 8 |
| CompositeScore.DifficultyOrDefault | minigame/gameLogic/compositeScore.js:34 | the difficulty is never empty, and a given one is kept |
| CompositeScore.ScoreBreakdown | minigame/gameLogic/compositeScore.js:138-152 | the total is the composite score and the clamp of base plus bonus minus penalty; the bonus is the floor of the seconds left times the configured rate; the penalty is the configured amount per error |
| CompositeScore.ActionStep | minigame/gameLogic/compositeScore.js:91-102 | a wrong action counts one error and reports the new count; a right action completes the game with the score of no time left and keeps the error count |
| CompositeScore.RunCountsWrong | minigame/gameLogic/compositeScore.js:91-102 | after any sequence of actions the error count grows by exactly the wrong ones, completion is never undone, and a completed game's score is within the configured bounds |
| CompositeScore.FirstTryScoresCeiling | minigame/gameLogic/compositeScore.js:98-99 | completing without an error scores the ceiling |
| CompositeScore.CompositeScoreLogic.constructor | minigame/gameLogic/compositeScore.js:32-46 | the difficulty defaults to `normal`; nothing is counted, completed or scored |
| CompositeScore.CompositeScoreLogic.HandleAction | minigame/gameLogic/compositeScore.js:91-102 | the new state and the report are those of the action step |
| CompositeScore.CompositeScoreLogic.CalcScore | minigame/gameLogic/compositeScore.js:109-119 | the score is within [10, 100], and 100 when there is no error and no negative time |
| CompositeScore.CompositeScoreLogic.CalcFinalScore | minigame/gameLogic/compositeScore.js:129-131 | the final score is within [10, 100] |
| CompositeScore.CompositeScoreLogic.GetScoreBreakdown | minigame/gameLogic/compositeScore.js:138-152 | the total is the final score, and the penalty is the configured amount per error |
| CompositeScoreTemplate.OfferedConfigsScoreInRange | minigame/gameLogic/compositeScoreTemplate.js:19-106 | the default configuration and every listed one score within [10, 100], and 100 for a flawless game |
| CompositeScoreTemplate.EasierIsKinder | minigame/gameLogic/compositeScoreTemplate.js:84-106 | with the same errors and time left, `hard` never scores more than `normal`, nor `normal` more than `easy` |
| CompositeScoreTemplate.CompositeScoreLogic.constructor | minigame/gameLogic/compositeScoreTemplate.js:14-31 | a given configuration is kept and a missing one becomes the default; nothing is counted or scored |
| CompositeScoreTemplate.CompositeScoreLogic.RecordWrong | minigame/gameLogic/compositeScoreTemplate.js:36-38 | one more error is counted |
| CompositeScoreTemplate.CompositeScoreLogic.CalcFinalScore | minigame/gameLogic/compositeScoreTemplate.js:46-57 | the score is the composite formula of the configuration, at least its floor, and is stored |
| CompositeScoreTemplate.CompositeScoreLogic.GetScoreBreakdown | minigame/gameLogic/compositeScoreTemplate.js:65-78 | the total is the stored composite score and the clamp of base plus bonus minus penalty; the bonus is the floor of the seconds left times the configured rate; the penalty is the configured amount per error |
| Timer.GetTimeLimit | minigame/utils/timer.js:92-98 | an unknown game gets 30 seconds; a known one gets its entry for the difficulty, or its `normal` entry when there is none; every limit is positive |
| Timer.TimeLimitTable | minigame/utils/timer.js:92-98 | `hell` is 20 seconds for spot the difference and falls back to `normal` for the other two puzzles; every puzzle gives more time on harder levels |
| Timer.NewTimer | minigame/utils/timer.js:17-26 | a new countdown is full and idle |
| Timer.StartStep | minigame/utils/timer.js:28-61 | starting a running countdown changes nothing; otherwise it runs from `now`, keeping the frame handle, or the interval handle without animation frames |
| Timer.StopStep | minigame/utils/timer.js:63-73 | stopping idles the countdown, clears the interval, and clears the frame handle when frames can be cancelled; the time is untouched |
| Timer.TickStep | minigame/utils/timer.js:36-51 | an idle countdown ignores a tick; a running one shows the time left since the start, or, when none is left, shows 0, stops and times out |
| Timer.AddTimeStep | minigame/utils/timer.js:75-79 | the start moves forward by the added time; the time left grows by it up to the total |
| Timer.RemainingSec | minigame/utils/timer.js:82-84 | the displayed seconds are the time left rounded up |
| Timer.Percent | minigame/utils/timer.js:87-90 | the fraction left is the time left over the total, and 0 without a positive total |
| Timer.StoppedIgnoresTicks | minigame/utils/timer.js:37 | a stopped countdown ignores any number of ticks |
| Timer.TimeoutFiresOnce | minigame/utils/timer.js:41-46 | over any run of ticks the timeout fires at most once, and after it the countdown is stopped at 0 |
| Timer.TicksCountDown | minigame/utils/timer.js:38-39 | a later tick never shows more time left than an earlier one |
| Timer.AddTimeThenTickExceedsTotal | minigame/utils/timer.js:38-79 | time added at the start of a run shows, at the next tick, more than the total, and a fraction above 1 |
| Timer.GameTimer.constructor | minigame/utils/timer.js:17-26 | the object starts as a new, idle countdown |
| Timer.GameTimer.Start | minigame/utils/timer.js:28-61 | the new state is the start step |
| Timer.GameTimer.Stop | minigame/utils/timer.js:63-73 | the new state is the stop step |
| Timer.GameTimer.Tick | minigame/utils/timer.js:36-51 | the new state and the outcome are the tick step |
| Timer.GameTimer.AddTime | minigame/utils/timer.js:75-79 | the new state is the add-time step |
| Timer.GameTimer.GetRemainingSec | minigame/utils/timer.js:82-84 | the displayed whole seconds |
| Timer.GameTimer.GetPercent | minigame/utils/timer.js:87-90 | the fraction of time left |
| Api.ToInt32 | minigame/utils/api.js:29-30 | the 32-bit truncation is the integer in [-2^31, 2^31) congruent to its input modulo 2^32 |
| Api.HashStepIs31 | minigame/utils/api.js:29-30 | the shift-and-subtract step is the 32-bit truncation of `31 * hash + c` |
| Api.Hash | minigame/utils/api.js:26-31 | the hash of the code units is a signed 32-bit value |
| Api.CodeUnits | minigame/utils/api.js:28 | `charCodeAt` yields UTF-16 code units, at least one per character |
| Api.SimpleSign | minigame/utils/api.js:24-33 | the loop computes the decimal text of the absolute value of the 32-bit hash |
| Api.SignRange | minigame/utils/api.js:32 | every signature is a number in [0, 2^31], and the empty text signs as "0" |
| Api.SignedText | minigame/utils/api.js:50 | a `GET` signs its URL and any other request its serialized body |
| Api.RequestMethod | minigame/utils/api.js:43 | a missing method is `GET`; otherwise the method is upper-cased, keeping its length |
| Api.Decide | minigame/utils/api.js:60-82 | a 2xx reply resolves with its body, or `{}`; a 5xx reply or a timeout failure is retried after 500 ms times the attempt number while fewer than three retries were made; any other reply rejects with its message or `HTTP <code>`, and any other failure rejects with the failure |
| Api.RunRequest | minigame/utils/api.js:42-85 | the retry chain always settles, after at most four attempts |
| Api.PersistentServerError | minigame/utils/api.js:17-72 | a server that always answers 503 is tried four times, waited on for 3000 ms in all, and the request rejects with `HTTP 503` |
| Api.SuccessSettlesAtOnce | minigame/utils/api.js:62-64 | a first 2xx reply resolves after one attempt |
| Api.LevelDataQuery | minigame/utils/api.js:124-133 | the level query carries the six parameters as given, with `resetProgress` sent as '1' or '0' |
| Api.LevelRequestSignsPath | minigame/utils/api.js:50 | the level request is a `GET`, so it signs the path and not its query |
| LevelModel.GetTimeLimit | game-server/model/levelModel.js:43-49 | the server's limit is the table entry of the game and difficulty, always positive, and `null` exactly when there is no entry |
| LevelModel.ServerTimeLimits | game-server/model/levelModel.js:18-49 | only spot the difference has a `hell` limit on the server (30 s); every game has easy, normal and hard limits; an unknown game has none |
| LevelModel.BuildQuery | game-server/model/levelModel.js:62-86 | no query for an unknown game or an empty difficulty; otherwise the query selects from the game's table, filters on the difficulty, adds the theme filter and its parameter exactly for a theme with spot the difference, ends with the random single row, and has one parameter per placeholder |
| LevelModel.StoredLevelData | game-server/model/levelModel.js:138-158 | a text column is parsed, and text that does not parse leaves `{}`; a column the driver already decoded is kept |
| LevelModel.ParseLevelRow | game-server/model/levelModel.js:120-168 | the word search keeps its answer and no level data; spot the difference prefers its two glyph columns over the JSON column; the others read the JSON column; the theme defaults to `null`, and the time limit comes from the table |
| LevelModel.CharColumnsWin | game-server/model/levelModel.js:129-136 | with both glyph columns filled, the JSON column of a spot-the-difference row is ignored, and a word-search row never has level data |
| LevelModel.GetLevelData | game-server/model/levelModel.js:61-112 | no level for an unknown game or an empty difficulty; a failed query is passed on; when the query succeeds, no rows give no level and otherwise the level is the parse of the first row, at the asked difficulty |
| UserModel.NormalizeUser | game-server/model/userModel.js:35-59 | `null` stays `null`; identity fields are kept; a JSON column that is empty or does not parse becomes an empty list or object; the hidden game is unlocked exactly when its column is 1 |
| UserModel.NewUserIsBlank | game-server/model/userModel.js:28-32 | a new player has no unlocks, no best score and no hidden game |
| UserModel.Renamed | game-server/model/userModel.js:22-25 | a given nickname replaces the stored one; no nickname keeps it |
| UserModel.RaiseMax | game-server/model/userModel.js:73-75 | a best score never falls; a given score becomes the game's best when there was none or it is higher; other games are untouched |
| UserModel.RaiseMaxIdempotent | game-server/model/userModel.js:73-75 | saving the same score twice is saving it once |
| UserModel.AddUnique | game-server/model/userModel.js:94-98 | the id is in the list afterwards, appended exactly when it was absent |
| UserModel.AddUniqueKeepsNoDup | game-server/model/userModel.js:94-98 | unlocking never creates a duplicate, and unlocking twice is unlocking once |
| UserModel.UserStore.FindOrCreate | game-server/model/userModel.js:15-33 | a stored player is returned, renamed when a new nickname is given; an unknown one is inserted blank with the next id and read back; progress is untouched |
| UserModel.UserStore.SaveProgress | game-server/model/userModel.js:68-84 | the player exists afterwards, a new one inserted as a blank row; the row differs from the stored or blank one only in the raised best score of the game and the unlock list written back decoded; other players are untouched; the level and score (0 when absent) are the game's progress |
| UserModel.UserStore.UnlockGame | game-server/model/userModel.js:92-104 | a theme is added once to the theme list and anything else once to the game list; both lists are written back and returned; the row differs from the stored or blank one only in those two lists; other players and the progress table are untouched |
| UserModel.UserStore.UnlockHidden | game-server/model/userModel.js:110-117 | the answer is always unlocked; a stored player's flag becomes 1, and nobody is inserted |
| ThemePackage.ThemeTablesAgree | minigame/gameLogic/themePackage.js:7-20 | every theme a game lists exists, every theme is stored under its own id, and the listing order names each theme once |
| ThemePackage.GetThemeList | minigame/gameLogic/themePackage.js:26-28 | the list holds the four themes in declaration order |
| ThemePackage.ThemeListIsEveryTheme | minigame/gameLogic/themePackage.js:26-28 | the list holds exactly the declared themes, without repetition |
| ThemePackage.GetThemeById | minigame/gameLogic/themePackage.js:34-36 | a theme is found exactly when its id is declared, and then it carries that id |
| ThemePackage.GetThemesForGame | minigame/gameLogic/themePackage.js:42-44 | a game's theme list, empty for an unknown game; each theme listed can be looked up |
| ThemePackage.LoadThemeData | minigame/gameLogic/themePackage.js:52-62 | an unknown theme loads nothing without asking the fetcher; a failed or empty answer loads nothing; otherwise the theme data is the answer's `themeData` or the whole answer, and the material is its `material` or `null` |
| ThemePackage.UnknownThemeSkipsFetcher | minigame/gameLogic/themePackage.js:53-54 | for an unknown theme the fetcher makes no difference |
| ThemePackage.LoadDependsOnAnswer | minigame/gameLogic/themePackage.js:55-57 | the load depends only on the fetcher's answer for the theme, and an answer without `themeData` is used whole |
| HiddenGame.CanUnlockHidden | minigame/gameLogic/hiddenGame.js:18-20 | the hidden game unlocks exactly when at least two themes are unlocked, and never without a list |
| HiddenGame.UnlockIsMonotone | minigame/gameLogic/hiddenGame.js:18-20 | unlocking more themes never locks the hidden game again |
| HiddenGame.TwoDistinctThemesUnlock | minigame/gameLogic/hiddenGame.js:11-20 | two different themes unlocked on the server unlock it; the same theme twice does not |
| HiddenGame.GetHiddenGameData | minigame/gameLogic/hiddenGame.js:26-32 | the bonus game has a name, a hint and three steps |
| DedupPoetry.KeysOfAppend | minigame/scripts/dedupPoetry.js:17 | the keys of a longer list are the old keys plus the new couplet's |
| DedupPoetry.FilterKeys | minigame/scripts/dedupPoetry.js:19-29 | the filtered list has no blocked key, no key twice, exactly the unblocked keys of the input, and is no longer than it |
| DedupPoetry.FilterKeepsFirstOccurrences | minigame/scripts/dedupPoetry.js:19-29 | the filtered list is the input's entries, in order, at exactly the positions of the first unblocked occurrence of each key |
| DedupPoetry.ExtendIndices | minigame/scripts/dedupPoetry.js:21-26 | one more input entry keeps the first-occurrence positions in step with the filter |
| DedupPoetry.FirstUnblockedInPrefix | minigame/scripts/dedupPoetry.js:21-23 | whether an entry is a first occurrence depends only on the entries before it |
| DedupPoetry.LastKeptIffFirst | minigame/scripts/dedupPoetry.js:23-25 | the last entry is kept exactly when it is the first unblocked occurrence of its key |
| DedupPoetry.Dedup | minigame/scripts/dedupPoetry.js:19-29 | the loop filters out the excluded couplets and repeats: no excluded key, no key twice, every other key of the input kept |
| DedupPoetry.KeySet.constructor | minigame/scripts/dedupPoetry.js:36 | the shared set starts empty |
| DedupPoetry.DedupCross | minigame/scripts/dedupPoetry.js:37-47 | the loop keeps the first occurrence of each key not already seen, and adds exactly the kept keys to the shared set |
| DedupPoetry.DedupAll | minigame/scripts/dedupPoetry.js:31-50 | the three pools end pairwise disjoint by key, each without excluded couplets; each pool holds no key twice; a harder pool keeps exactly its keys not in an easier pool, and none grows |
| DedupPoetry.Staggered | minigame/scripts/dedupPoetry.js:48-50 | removing the earlier pools' keys from each later pool makes the three key sets disjoint |
| DedupPoetry.FilterKeySet | minigame/scripts/dedupPoetry.js:19-29 | the filter keeps exactly the unblocked keys and never lengthens the list |
| ResultPage.IntOrZero | minigame/pages/result/result.js:38-40 | `parseInt(s, 10) \|\| 0` is the parsed number, or 0 when nothing parses |
| ResultPage.VerdictOf | minigame/pages/result/result.js:61-62 | a win shows the pass message; a loss with no time left of a positive total shows the time-out message; any other loss the try-again message |
| ResultPage.TimeText | minigame/pages/result/result.js:42-50 | no time line without a positive total; a win shows the seconds used and left; a loss shows the total |
| ResultPage.OnLoad | minigame/pages/result/result.js:33-65 | every field is read from its query parameter, missing numbers reading as 0 and the level never 0; names and icons fall back for unknown games; the emoji, message and time line follow the verdict |
| ResultPage.ResultQueryRoundTrip | minigame/pages/result/result.js:33-40 | the result page reads back the game, level, outcome, score and times the game page wrote |
| ResultPage.NextLevel | minigame/pages/result/result.js:71 | the next level after a win, level 1 after a loss |
| ResultPage.NextGameQuery | minigame/pages/result/result.js:74 | the game page is opened for the same game, always starting at once |
| ResultPage.NextGameLevel | minigame/pages/result/result.js:71-74 | the opened game page plays the next level after a win and level 1 after a loss |
| GamePage.LevelParam | minigame/pages/game/game.js:53 | the page's level is never 0: a level that does not parse, or parses as 0, is level 1 |
| GamePage.LevelParamRoundTrip | minigame/pages/game/game.js:53 | a nonzero level written in decimal is read back unchanged |
| GamePage.GetDifficulty | minigame/pages/game/game.js:174-179 | levels 1-3 are `easy`, 4-6 `normal`, 7-10 `hard`, and every other level, below 1 or above 10, is `hell` |
| GamePage.HarderWithLevel | minigame/pages/game/game.js:174-179 | from level 1 on, a later level is never easier |
| GamePage.ResponseDifficulty | minigame/pages/game/game.js:126 | the server's difficulty is kept, and a missing one becomes `normal` |
| GamePage.CustomTimeLimit | minigame/pages/game/game.js:130-136 | the server's time limit is kept exactly when it is present and nonzero |
| GamePage.TimeBudget | minigame/pages/game/game.js:227 | the countdown's length is never 0; without a server limit it is the client's table entry, which is positive |
| GamePage.ServerTimeWins | minigame/pages/game/game.js:130-136 | a nonzero server limit decides the countdown; otherwise the client's table does, and an unknown game gets 30 seconds |
| GamePage.CreateLogicSpec | minigame/pages/game/game.js:189-221 | the game id picks the puzzle; a word search always has an answer, the server's when it sent one; an unknown game gets a word search without difficulty; spot the difference takes `diffAt`, or `diffRow`/`diffCol` when `diffAt` is missing |
| GamePage.UnknownGameIsEasyWordFind | minigame/pages/game/game.js:217-218 | an unknown game id plays a 4 x 4 word search, with the default idiom when no answer came |
| GamePage.BuildLogic | minigame/pages/game/game.js:189-221 | building fails exactly when the chosen constructor throws; otherwise it yields a fresh puzzle object built as specified |
| GamePage.RouteTouch | minigame/pages/game/game.js:811-832 | the start button counts only on the ready screen; the hint button and the board count only while playing |
| GamePage.WordFindWin | minigame/pages/game/game.js:572-597 | a word-search tap wins exactly when it completes a four-glyph selection that spells a four-glyph answer; a full selection spelling anything else gets the wrong-word toast |
| GamePage.WrongWordResets | minigame/pages/game/game.js:589-592 | after a full wrong word the page empties the selection, keeping the attempt and the error it cost, so any cell of the board takes a new tap again |
| GamePage.ToastOverstatesPenalty | minigame/pages/game/game.js:618-619 | the written toast announces 15 points for the first wrong cell, which costs 12 |
| GamePage.ToastPenaltyIsScoreDrop | minigame/gameLogic/charDiff.js:120 | the announced penalty equals what the wrong cells took off the score, whenever the floor of 10 is not reached |
| GamePage.CharDiffWin | minigame/pages/game/game.js:599-642 | a tap wins exactly on the different cell; a repeat miss gets the already-tried toast; a new miss announces the new count of wrong cells and, as written, 15 points per wrong cell, more than the 12 the score loses |
| GamePage.PoetryWin | minigame/pages/game/game.js:644-655 | a tap wins exactly when it connects a declared pair that brings the connections up to the number of upper items |
| GamePage.WordHintShowsFirstGlyph | minigame/pages/game/game.js:476-480 | the word-search hint shows the answer's first glyph |
| GamePage.RowHintNamesRow | minigame/pages/game/game.js:481-486 | two different rows get different spot-the-difference hints |
| GamePage.ReportedScore | minigame/pages/game/game.js:662-668 | without a puzzle the score is 0; a win reports the final score, at least 10 and at most 100 when no more time is left than was given |
| GamePage.WordFindTap | minigame/pages/game/game.js:572-597 | a tap off the board changes nothing; a tap on the cell under the point is that cell's tap step followed by the page's reset of a full wrong selection; a win leaves the word complete |
| GamePage.CharDiffTap | minigame/pages/game/game.js:599-642 | a tap off the board changes nothing; a tap on the cell under the point is that cell's tap step, and a new miss announces the written 15-point penalty; a win reveals the cell |
| GamePage.PoetryTap | minigame/pages/game/game.js:644-655 | a tap outside every item changes nothing; a tap on the item under the point is the tap step of its id; a win completes the puzzle |
| GamePage.TapPuzzle | minigame/pages/game/game.js:571-656 | the branch of the puzzle's own game takes the tap, as each branch above states, and a winning tap leaves the puzzle solved |
| GamePage.GamePage.constructor | minigame/pages/game/game.js:50-62 | the game defaults to the word search, the level is read as above, the reset and auto-start flags are read, and the page waits on the ready screen |
| GamePage.GamePage.RequestedDifficulty | minigame/pages/game/game.js:113 | the page asks for the difficulty of its level |
| GamePage.GamePage.StopTimer | minigame/pages/game/game.js:254-258 | an existing countdown is stopped; the puzzle is untouched |
| GamePage.GamePage.StartPlaying | minigame/pages/game/game.js:224-251 | the old countdown is stopped and a fresh one over the time budget starts; the page is playing with the full time left |
| GamePage.GamePage.LoadLevelData | minigame/pages/game/game.js:120-150 | the answer, difficulty and server limit are stored and the data is ready; the puzzle is built exactly when its constructor does not throw; an auto-start page then starts playing, and otherwise the clock is untouched |
| GamePage.GamePage.SetResponse | minigame/pages/game/game.js:122-138 | the reply's answer, difficulty and time limit are stored and the data is marked ready; nothing else changes |
| GamePage.GamePage.StartIfAsked | minigame/pages/game/game.js:142-148 | a built puzzle on an auto-start page starts playing; otherwise the clock is untouched |
| GamePage.GamePage.CreateLogic | minigame/pages/game/game.js:189-221 | a successful build installs a fresh puzzle; a throwing constructor keeps the old one |
| GamePage.GamePage.OnStartGame | minigame/pages/game/game.js:798-807 | the game starts playing with a fresh countdown over the time budget |
| GamePage.GamePage.GoResult | minigame/pages/game/game.js:659-674 | the game is finished, the countdown stopped, and the result query carries the game, level, outcome, reported score and times |
| GamePage.GamePage.ScoreToReport | minigame/pages/game/game.js:662-668 | the score `goResult` reports |
| GamePage.GamePage.OnTimerTick | minigame/pages/game/game.js:232-249 | a frame copies the time left; the timeout zeroes it and finishes the game as a loss; an idle tick changes nothing |
| GamePage.GamePage.ShowHint | minigame/pages/game/game.js:460-503 | a hint is given once per game: the first request gets the game's hint, later ones get none |
| GamePage.GamePage.HandleBoardTap | minigame/pages/game/game.js:571-656 | the puzzle of the page's game takes the tap of the cell or item under the point, with the word-search reset; the result page is requested exactly when the tap wins; a win leaves the puzzle solved and the game finished; any other tap leaves the page and its clock alone |
| GamePage.GamePage.OnTouchEnd | minigame/pages/game/game.js:811-832 | the touch is routed by the game state; an ignored touch changes nothing; the start button starts playing; only a board tap changes the puzzle, as in `HandleBoardTap`, and only a winning one requests the result page |

## Left out

Display and runtime:

- All canvas drawing is left out: the puzzles' `draw` methods, `minigame/utils/canvas.js`, the game page's `draw`, `_drawTimerBar` and `drawReadyScreen`, the index page and `drawUnlockAnimation`. It is rendering through a foreign 2D context.
- `getUnlockTip` and the scoring-rules text of `getScoringRules` are left out because they are display strings. The rules text does not match the formulas: for charDiff it says 0.8 points per second and 15 per wrong cell, while `calcScore` uses 1.5 and 12.
- The screen-to-board transform, the button geometry and the touch classification of the game page are left out. They are scale factors computed with `Math.min`. `GamePage.GamePage.HandleBoardTap` takes board coordinates, and `OnTouchEnd` takes an already classified touch.
- Toasts, modals, `setData`, `wx.redirectTo`, `wx.reLaunch`, `navigateBack` and console output are left out. The dedup script's `console.log` report is one of them. The game page's reactions and requested navigations are results of its methods.
- The retry loop of the load-failure modal is left out, because it waits on a user's answer to a modal.
- The `setTimeout` delays are left out: 100 ms before `goResult` on a timeout, 1500 ms before a wrong word-find selection is cleared, and the retry delay of the request layer. The timeout finishes the game at once. A wrong full word-find selection is cleared in the same step as the tap that completed it, so taps made during the 1500 ms before the clear are not modelled. The retry delay is a number in the decision.
- `onReady`, canvas setup, `onUnload`, `onTouchStart` and `onTouchMove` are left out. They only prepare drawing or release handles.
- Reading the `openid` through `getApp()` and storage is left out. The `openid` is a parameter.
- The `initGame` and `draw` methods of the composite-score template are left out. One is a stub to override, the other is drawing.
- The ad SDK, the share helpers, the AI controller, the animations, the app entry points and the server's Express plumbing are not part of this model. They are foreign SDKs, time-driven easing or request glue.

Inputs taken as parameters:

- `Math.random()` is not modelled. Filler picks, swap indices and charDiff's `(dr, dc)` cell are parameters instead.
- The server's `ORDER BY RAND()` and the execution of the query are not modelled. The level query is modelled as its clauses and parameters, and the row it returns is an input.
- `JSON.parse` and `JSON.stringify` are not modelled. A stored JSON column is its decoded value, empty or malformed, and a stringifier is a supplied function. A column holding valid JSON that is not a list or an object is not modelled.
- The database's own default for `hidden_unlock`, `update_time` and the write/read round trip are not modelled. The user tables are maps that are updated directly.
- URLs are not modelled as strings. The result page's query is a map of parameter texts.
- `ResultPage.ResultQueryRoundTrip` is stated for whole seconds, while the game page may pass fractional ones.
- `remainingSec || 0` for `undefined` or `NaN` is not modelled. JavaScript's prototype keys in the table lookups are not modelled either.
- Lengths and glyph splits count Dafny characters (Unicode scalar values). The word search's `answer.length` and `split('')` count UTF-16 code units, so the two differ for a glyph outside the Basic Multilingual Plane. The request signature does use UTF-16 code units.
- `Common.TrimStart` skips only space, tab, line feed and carriage return before a number. `parseInt` also skips the other Unicode white space characters.
- `Api.RequestMethod` upper-cases ASCII letters only. `toUpperCase` also maps other scripts.
- The request layer's other wrappers are not modelled: `userInit`, `saveProgress`, `unlockGame`, `unlockHidden` and `getThemeData`. They pass their arguments to `request` unchanged. Building the request header is left out too.
- A charDiff payload with `diffRow` but no `diffCol` is not modelled. The game page takes both or neither.

Contracts narrower than the source:

- WordFind.WordFindLogic.constructor requires the answer to fit the board, and the source has no such check. An answer longer than the board gets no fillers, and its extra glyphs are silently dropped when the rows are cut. It also requires the filler picks to index the pool, which rules out an empty pool. With 65 filler glyphs and at most 35 cells, the pool is never empty for an answer that fits.
- CharDiff.CharDiffLogic.constructor requires a supplied matrix to have the difficulty's shape, while the source keeps a matrix of any shape. The missing-`base`/`diff` throw is modelled by `CharDiff.NewCharDiff`, not excluded.
- CharDiff.NewCharDiff carries the same matrix-shape requirement.
- GamePage.BuildLogic and GamePage.GamePage.LoadLevelData carry the requirements of the puzzle constructors above, gathered in `CanBuild`.
- GamePage.GamePage.HandleBoardTap requires a charDiff board to know its different cell. Without `diffAt` the source's `tap` reads a field of `undefined` and throws.
- GamePage.GamePage.OnTouchEnd carries the same requirement.
- Timer.GameTimer.AddTime lets the remaining time exceed the total on the next tick, as the source does. The model states this as `Timer.AddTimeThenTickExceedsTotal` and does not prevent it.

## Findings

| source | as written | input that shows it | evidently intended | confidence | as-written member | corrected member |
|---|---|---|---|---|---|---|
| minigame/pages/game/game.js:619 | the wrong-cell toast of spot the difference announces `wrongCount * 15` points | the first wrong cell with no time used: the toast says -15, but `calcScore` (charDiff.js:120) drops the score from 100 to 88 | the toast announces the 12 points each wrong cell costs | not executed | GamePage.ToastOverstatesPenalty | GamePage.ToastPenaltyIsScoreDrop |

/** The game page (`pages/game/game.js`): it reads the level from its URL,
    loads the level's data, builds the puzzle object for the game, runs the
    countdown, routes touches to the puzzle and reports the outcome to the
    result page. Drawing, toasts, dialogs and the screen-to-board coordinate
    transform are outside the model; touches arrive already classified. */
module GamePage {
  import opened Common
  import opened Grid
  import Timer
  import WordFind
  import CharDiff
  import PoetryConnect
  import Shuffle

  /** The answer a word search falls back to when the server sends none. */
  const DefaultAnswer: string := "国泰民安"

  // ---------------------------------------------------------------------------
  // Level and difficulty
  // ---------------------------------------------------------------------------

  /** `parseInt(options.level, 10) || 1`: an unparsable or zero level is level 1. */
  function LevelParam(param: string): (level: int)
    ensures level != 0
    ensures ParseInt(param).None? ==> level == 1
  {
    match ParseInt(param)
    case None => 1
    case Some(v) => if v == 0 then 1 else v
  }

  /** The level written into a URL reads back as itself. */
  lemma LevelParamRoundTrip(level: int)
    requires level != 0
    ensures LevelParam(IntToString(level)) == level
  {
    ParseIntRoundTrip(level);
  }

  /** `getDifficulty(level)`: levels 1-3 are easy, 4-6 normal, 7-10 hard, and
      every other level hell. */
  function GetDifficulty(level: int): (d: string)
    ensures d == "easy" <==> 1 <= level <= 3
    ensures d == "normal" <==> 4 <= level <= 6
    ensures d == "hard" <==> 7 <= level <= 10
    ensures d == "hell" <==> level < 1 || 10 < level
  {
    if 1 <= level <= 3 then "easy"
    else if 4 <= level <= 6 then "normal"
    else if 7 <= level <= 10 then "hard"
    else "hell"
  }

  /** The order of the four difficulties. */
  function Rank(difficulty: string): nat
  {
    if difficulty == "easy" then 0
    else if difficulty == "normal" then 1
    else if difficulty == "hard" then 2
    else 3
  }

  /** From level 1 on, a later level is never easier. */
  lemma HarderWithLevel(l1: int, l2: int)
    requires 1 <= l1 <= l2
    ensures Rank(GetDifficulty(l1)) <= Rank(GetDifficulty(l2))
  {
  }

  /** `res.difficulty || 'normal'`. */
  function ResponseDifficulty(difficulty: string): (d: string)
    ensures d != ""
    ensures difficulty != "" ==> d == difficulty
  {
    if difficulty == "" then "normal" else difficulty
  }

  // ---------------------------------------------------------------------------
  // The time budget
  // ---------------------------------------------------------------------------

  /** The server's `timeLimit` is kept only when it is truthy (present and not 0). */
  function CustomTimeLimit(timeLimit: Option<int>): (c: Option<int>)
    ensures c.Some? <==> timeLimit.Some? && timeLimit.value != 0
    ensures c.Some? ==> c == timeLimit
  {
    if timeLimit.Some? && timeLimit.value != 0 then timeLimit else None
  }

  /** `customTimeLimit || getTimeLimit(gameId, difficulty)`, in seconds. */
  function TimeBudget(custom: Option<int>, gameId: string, difficulty: string): (t: int)
    ensures t != 0
    ensures custom.None? ==> t == Timer.GetTimeLimit(gameId, difficulty) && t > 0
  {
    if custom.Some? && custom.value != 0 then custom.value else Timer.GetTimeLimit(gameId, difficulty)
  }

  /** A server time limit wins over the built-in table; without one the
      built-in table decides, and an unknown game gets 30 seconds. */
  lemma ServerTimeWins(timeLimit: Option<int>, gameId: string, difficulty: string)
    ensures timeLimit.Some? && timeLimit.value != 0 ==>
              TimeBudget(CustomTimeLimit(timeLimit), gameId, difficulty) == timeLimit.value
    ensures !(timeLimit.Some? && timeLimit.value != 0) ==>
              TimeBudget(CustomTimeLimit(timeLimit), gameId, difficulty) == Timer.GetTimeLimit(gameId, difficulty)
    ensures timeLimit.None? && gameId !in Timer.TimeConfig ==>
              TimeBudget(CustomTimeLimit(timeLimit), gameId, difficulty) == 30
  {
  }

  // ---------------------------------------------------------------------------
  // Choosing the puzzle object (`createLogic`)
  // ---------------------------------------------------------------------------

  /** The level payload the page reads; `diffRowCol` is the pair
      `diffRow`/`diffCol` when `diffRow` is present. */
  datatype LevelData = LevelData(
    matrix: Option<seq<seq<string>>>,
    diffAt: Option<(int, int)>,
    diffRowCol: Option<(int, int)>,
    base: string,
    diff: string,
    items: Option<seq<PoetryConnect.Item>>,
    pairs: Option<seq<(int, int)>>)

  /** What `getLevelData` answers; an absent `answer` or `difficulty` is "". */
  datatype LevelResponse = LevelResponse(levelData: LevelData, answer: string, difficulty: string, timeLimit: Option<int>)

  /** The constructor call `createLogic` makes, with its options. */
  datatype LogicSpec =
    | WordFindSpec(answer: string, wordDifficulty: string)
    | CharDiffSpec(charDifficulty: string, base: string, diff: string,
                   matrix: Option<seq<seq<string>>>, diffAt: Option<(int, int)>)
    | PoetrySpec(poetryDifficulty: string, items: Option<seq<PoetryConnect.Item>>, pairs: Option<seq<(int, int)>>)

  /** `createLogic()`: the game id picks the puzzle; any other id gets a word
      search built without a difficulty. */
  function CreateLogicSpec(gameId: string, answer: string, difficulty: string, data: LevelData): (spec: LogicSpec)
    ensures gameId == "charDiff" <==> spec.CharDiffSpec?
    ensures gameId == "poetryConnect" <==> spec.PoetrySpec?
    ensures spec.WordFindSpec? ==> spec.answer != "" && (answer != "" ==> spec.answer == answer)
    ensures spec.WordFindSpec? && gameId != "wordFind" ==> spec.wordDifficulty == ""
    ensures spec.CharDiffSpec? ==> spec.diffAt == (if data.diffAt.Some? then data.diffAt else data.diffRowCol)
  {
    if gameId == "wordFind" then WordFindSpec(if answer == "" then DefaultAnswer else answer, difficulty)
    else if gameId == "charDiff" then
      CharDiffSpec(difficulty, data.base, data.diff, data.matrix,
                   if data.diffAt.Some? then data.diffAt else data.diffRowCol)
    else if gameId == "poetryConnect" then PoetrySpec(difficulty, data.items, data.pairs)
    else WordFindSpec(if answer == "" then DefaultAnswer else answer, "")
  }

  /** The constructor call for a server answer. */
  function LevelSpec(gameId: string, res: LevelResponse): LogicSpec
  {
    CreateLogicSpec(gameId, res.answer, ResponseDifficulty(res.difficulty), res.levelData)
  }

  /** An unknown game id gets the easy 4 by 4 word search with the default
      answer unless the server sent one. */
  lemma UnknownGameIsEasyWordFind(gameId: string, answer: string, difficulty: string, data: LevelData)
    requires gameId !in {"wordFind", "charDiff", "poetryConnect"}
    ensures var spec := CreateLogicSpec(gameId, answer, difficulty, data);
            && spec.WordFindSpec?
            && WordFind.ConfigFor(WordFind.DifficultyOrDefault(spec.wordDifficulty)) == WordFind.Config(4, 4, 72)
            && spec.answer == (if answer == "" then DefaultAnswer else answer)
  {
    var spec := CreateLogicSpec(gameId, answer, difficulty, data);
    assert WordFind.DifficultyOrDefault(spec.wordDifficulty) == "easy";
  }

  /** The constructor calls that throw: a spot-the-difference without `base`
      or `diff`, a pair-matching puzzle without `items` or `pairs`. */
  predicate BuildFails(spec: LogicSpec)
  {
    match spec
    case WordFindSpec(_, _) => false
    case CharDiffSpec(_, base, diff, _, _) => base == "" || diff == ""
    case PoetrySpec(_, items, pairs) => items.None? || pairs.None?
  }

  /** What each constructor needs of the random draws (and, for a supplied
      spot-the-difference matrix, of its shape). */
  predicate CanBuild(spec: LogicSpec, picks: seq<nat>, swaps: seq<nat>, dr: nat, dc: nat)
  {
    match spec
    case WordFindSpec(answer, difficulty) =>
      var cfg := WordFind.ConfigFor(WordFind.DifficultyOrDefault(difficulty));
      && |answer| <= cfg.cols * cfg.rows
      && |picks| == cfg.cols * cfg.rows - |answer|
      && WordFind.ValidPicks(WordFind.Pool(answer), picks)
      && Shuffle.IsSwapSequence(swaps, cfg.cols * cfg.rows)
    case CharDiffSpec(difficulty, _, _, matrix, _) =>
      var cfg := CharDiff.ConfigFor(CharDiff.DifficultyOrDefault(difficulty));
      && (matrix.Some? ==> IsGrid(matrix.value, cfg.rows, cfg.cols))
      && (matrix.None? ==> dr < cfg.rows && dc < cfg.cols)
    case PoetrySpec(_, items, _) =>
      items.Some? ==> Shuffle.IsSwapSequence(swaps, |PoetryConnect.Column(items.value, false)|)
  }

  /** The puzzle object the page holds. */
  datatype Logic =
    | WordFindGame(wf: WordFind.WordFindLogic)
    | CharDiffGame(cd: CharDiff.CharDiffLogic)
    | PoetryGame(pc: PoetryConnect.PoetryConnectLogic)

  function LogicObject(l: Logic): object
  {
    match l
    case WordFindGame(wf) => wf
    case CharDiffGame(cd) => cd
    case PoetryGame(pc) => pc
  }

  function LogicFrame(l: Option<Logic>): set<object>
  {
    if l.Some? then {LogicObject(l.value)} else {}
  }

  ghost predicate LogicValid(l: Logic)
    reads LogicObject(l)
  {
    match l
    case WordFindGame(wf) => wf.Valid()
    case CharDiffGame(cd) => cd.Valid()
    case PoetryGame(pc) => pc.Valid()
  }

  /** The puzzle object is neither the page nor a timer, so changing those
      leaves it alone. */
  lemma LogicApart(l: Logic, page: GamePage, t: Timer.GameTimer?)
    ensures LogicObject(l) != page && LogicObject(l) != t
  {
  }

  /** What the page can see of its puzzle object: its configuration and its
      progress. */
  datatype LogicView =
    | WordFindView(answer: string, difficulty: string, wfProgress: WordFind.Progress)
    | CharDiffView(difficulty: string, base: string, diff: string, matrix: seq<seq<string>>,
                   diffAt: Option<(int, int)>, cdProgress: CharDiff.Progress, score: int)
    | PoetryView(difficulty: string, items: seq<PoetryConnect.Item>, pairs: seq<(int, int)>,
                 pcProgress: PoetryConnect.Progress, score: int)

  function View(l: Logic): LogicView
    reads LogicObject(l)
  {
    match l
    case WordFindGame(wf) => WordFindView(wf.answer, wf.difficulty, wf.State())
    case CharDiffGame(cd) => CharDiffView(cd.difficulty, cd.base, cd.diff, cd.matrix, cd.diffAt, cd.State(), cd.score)
    case PoetryGame(pc) => PoetryView(pc.difficulty, pc.items, pc.pairs, pc.State(), pc.score)
  }

  /** The object is what the constructor call builds, before any tap. */
  predicate Built(v: LogicView, spec: LogicSpec)
  {
    match spec
    case WordFindSpec(answer, difficulty) =>
      && v.WordFindView?
      && v.answer == answer && v.difficulty == WordFind.DifficultyOrDefault(difficulty)
      && v.wfProgress.selected == [] && !v.wfProgress.isComplete
      && v.wfProgress.score == 0 && v.wfProgress.wrongCount == 0
    case CharDiffSpec(difficulty, base, diff, matrix, diffAt) =>
      && v.CharDiffView?
      && v.base == base && v.diff == diff && v.difficulty == CharDiff.DifficultyOrDefault(difficulty)
      && (matrix.Some? ==> v.matrix == matrix.value && v.diffAt == diffAt)
      && (matrix.None? ==> v.diffAt.Some?)
      && v.cdProgress == CharDiff.Progress(false, []) && v.score == 0
    case PoetrySpec(difficulty, items, pairs) =>
      && v.PoetryView? && items.Some? && pairs.Some?
      && v.items == items.value && v.pairs == pairs.value
      && v.difficulty == (if difficulty == "" then "easy" else difficulty)
      && v.pcProgress == PoetryConnect.Start && v.score == 0
  }

  /** The `switch` of `createLogic`, given the random draws the constructors use. */
  method BuildLogic(spec: LogicSpec, picks: seq<nat>, swaps: seq<nat>, dr: nat, dc: nat)
    returns (r: Result<Logic, string>)
    requires CanBuild(spec, picks, swaps, dr, dc)
    ensures r.Failure? <==> BuildFails(spec)
    ensures r.Success? ==> fresh(LogicObject(r.value)) && LogicValid(r.value) && Built(View(r.value), spec)
  {
    match spec
    case WordFindSpec(answer, difficulty) =>
      var wf := new WordFind.WordFindLogic(answer, difficulty, picks, swaps);
      r := Success(WordFindGame(wf));
    case CharDiffSpec(difficulty, base, diff, matrix, diffAt) =>
      var made := CharDiff.NewCharDiff(difficulty, base, diff, matrix, diffAt, dr, dc);
      if made.Failure? {
        r := Failure(made.error);
      } else {
        r := Success(CharDiffGame(made.value));
      }
    case PoetrySpec(difficulty, items, pairs) =>
      var made := PoetryConnect.NewPoetryConnect(difficulty, items, pairs, swaps);
      if made.Failure? {
        r := Failure(made.error);
      } else {
        r := Success(PoetryGame(made.value));
      }
  }

  // ---------------------------------------------------------------------------
  // Touches and what the page does with a tap's result
  // ---------------------------------------------------------------------------

  datatype GameState = Ready | Playing | Finished

  /** Where a touch landed, once the page has mapped it: the start button of the
      ready screen, the hint button, a point of the board (board coordinates),
      or anywhere else. */
  datatype Touch = StartButton | HintButton | BoardPoint(x: real, y: real) | Elsewhere

  datatype Route = StartGame | ShowHint | BoardTap(x: real, y: real) | Ignore

  /** `onTouchEnd`: the start button counts only on the ready screen, and the
      hint button and the board only while playing. */
  function RouteTouch(state: GameState, t: Touch): (r: Route)
    ensures r == StartGame <==> state == Ready && t == StartButton
    ensures r == ShowHint <==> state == Playing && t == HintButton
    ensures r.BoardTap? <==> state == Playing && t.BoardPoint?
    ensures r.BoardTap? ==> r.x == t.x && r.y == t.y
  {
    if state == Ready && t == StartButton then StartGame
    else if state == Playing then
      match t
      case HintButton => ShowHint
      case BoardPoint(x, y) => BoardTap(x, y)
      case _ => Ignore
    else Ignore
  }

  /** What the page does after a tap: nothing, finish as a win, show the
      wrong-word toast and clear the selection later, or one of the
      spot-the-difference toasts. */
  datatype Reaction =
    | NoReaction
    | Succeed
    | WrongWord
    | AlreadyTried
    | WrongCell(tip: string, wrongCount: nat, penalty: nat)

  /** The word-search branch: react only once four glyphs are selected. */
  function WordFindReaction(res: WordFind.TapResult): Reaction
  {
    match res
    case Appended(_, isFull, isCorrect) =>
      if isFull && isCorrect then Succeed else if isFull then WrongWord else NoReaction
    case _ => NoReaction
  }

  /** A tap wins the word search exactly when it completes a four-glyph
      selection that spells the answer; the full wrong selection gets the
      wrong-word reaction. An answer of any other length is never won here. */
  lemma WordFindWin(matrix: seq<seq<char>>, rows: nat, cols: nat, answer: string,
                    p: WordFind.Progress, row: int, col: int)
    requires IsGrid(matrix, rows, cols) && WordFind.SelectionValid(matrix, rows, cols, p)
    ensures var (q, res) := WordFind.TapStep(matrix, rows, cols, answer, p, row, col);
            WordFindReaction(res) == Succeed <==>
              res.Appended? && q.isComplete && |answer| == WordFind.MaxSelected
    ensures var (q, res) := WordFind.TapStep(matrix, rows, cols, answer, p, row, col);
            WordFindReaction(res) == WrongWord <==>
              res.Appended? && |q.selected| == WordFind.MaxSelected && WordFind.Spelled(q.selected) != answer
  {
    var (q, res) := WordFind.TapStep(matrix, rows, cols, answer, p, row, col);
    WordFind.TapRejected(matrix, rows, cols, answer, p, row, col);
    if 0 <= row < rows && 0 <= col < cols {
      if WordFind.IndexOf(p.selected, row, col) >= 0 {
        WordFind.TapDeselects(matrix, rows, cols, answer, p, row, col);
      } else if |p.selected| < WordFind.MaxSelected {
        WordFind.TapAppends(matrix, rows, cols, answer, p, row, col);
        assert |WordFind.Spelled(q.selected)| == |q.selected|;
      }
    }
  }

  /** A word-search tap as the page plays it: the puzzle's own step, then the
      page's reset of a full wrong selection (`logic.selected = []`). */
  function WordFindPageStep(matrix: seq<seq<char>>, rows: nat, cols: nat, answer: string,
                            p: WordFind.Progress, row: int, col: int): (WordFind.Progress, Reaction)
    requires IsGrid(matrix, rows, cols)
  {
    var (q, res) := WordFind.TapStep(matrix, rows, cols, answer, p, row, col);
    var reaction := WordFindReaction(res);
    (if reaction == WrongWord then q.(selected := []) else q, reaction)
  }

  /** After a full wrong word the page empties the selection and keeps the
      error and the attempt it cost, so every cell of the board takes a new
      tap again. Without the reset a fifth new cell would always be refused. */
  lemma WrongWordResets(matrix: seq<seq<char>>, rows: nat, cols: nat, answer: string,
                        p: WordFind.Progress, row: int, col: int, nextRow: int, nextCol: int)
    requires IsGrid(matrix, rows, cols) && WordFind.SelectionValid(matrix, rows, cols, p)
    requires WordFindPageStep(matrix, rows, cols, answer, p, row, col).1 == WrongWord
    ensures var (q, _) := WordFindPageStep(matrix, rows, cols, answer, p, row, col);
            && q.selected == [] && !q.isComplete && q.score == p.score
            && q.attempts == p.attempts + 1 && q.wrongCount == p.wrongCount + 1
    ensures 0 <= nextRow < rows && 0 <= nextCol < cols ==>
              var (q, _) := WordFindPageStep(matrix, rows, cols, answer, p, row, col);
              WordFind.TapStep(matrix, rows, cols, answer, q, nextRow, nextCol).1.Appended?
  {
    WordFindWin(matrix, rows, cols, answer, p, row, col);
    WordFind.TapRejected(matrix, rows, cols, answer, p, row, col);
    if WordFind.IndexOf(p.selected, row, col) >= 0 {
      WordFind.TapDeselects(matrix, rows, cols, answer, p, row, col);
    } else {
      WordFind.TapAppends(matrix, rows, cols, answer, p, row, col);
    }
  }

  /** The tip for the n-th wrong cell. */
  function Tip(wrongCount: nat): string
  {
    if wrongCount == 1 then "不对哦～再仔细看看"
    else if wrongCount == 2 then "还不是这个，别着急"
    else if wrongCount == 3 then "提示：注意笔画的细微差别"
    else if wrongCount == 4 then "加油！仔细观察每个字"
    else if wrongCount >= 5 then "可以试试提示按钮哦"
    else ""
  }

  /** The penalty the wrong-cell toast announces, as written: 15 points a cell. */
  function ToastPenaltyAsWritten(wrongCount: nat): nat
  {
    wrongCount * 15
  }

  /** The written toast overstates the cost of a wrong cell: the first one
      costs 12 points of score, the toast says 15. */
  lemma ToastOverstatesPenalty()
    ensures CharDiff.CalcScore(0, 0.0) - CharDiff.CalcScore(1, 0.0) == 12
    ensures ToastPenaltyAsWritten(1) == 15
  {
    CharDiff.CalcScoreBounds(0, 0, 0.0, 0.0);
  }

  /** The penalty the toast should announce: the 12 points a wrong cell costs. */
  function ToastPenalty(wrongCount: nat): nat
  {
    wrongCount * 12
  }

  /** Away from the floor of 10, the announced penalty is exactly what the
      wrong cells took off the score. */
  lemma ToastPenaltyIsScoreDrop(wrongCount: nat, elapsedSec: real)
    requires 100 - Floor(elapsedSec * 1.5) - wrongCount * 12 >= 10
    ensures CharDiff.CalcScore(0, elapsedSec) - CharDiff.CalcScore(wrongCount, elapsedSec) == ToastPenalty(wrongCount)
  {
  }

  /** The spot-the-difference branch, with the toast's penalty as written. */
  function CharDiffReaction(o: CharDiff.TapOutcome): Reaction
  {
    if o.hit then Succeed
    else if o.isRepeated then AlreadyTried
    else WrongCell(Tip(o.wrongCount), o.wrongCount, ToastPenaltyAsWritten(o.wrongCount))
  }

  /** A tap wins the spot-the-difference exactly on the variant's cell; a miss
      on a new cell announces the new count of wrong cells. */
  lemma CharDiffWin(diffAt: (int, int), p: CharDiff.Progress, row: int, col: int)
    ensures var (q, o) := CharDiff.TapStep(diffAt, p, row, col);
            CharDiffReaction(o) == Succeed <==> (row, col) == diffAt
    ensures var (q, o) := CharDiff.TapStep(diffAt, p, row, col);
            CharDiffReaction(o) == AlreadyTried <==> (row, col) != diffAt && CharDiff.Key(row, col) in p.tappedWrong
    ensures var (q, o) := CharDiff.TapStep(diffAt, p, row, col);
            CharDiffReaction(o).WrongCell? ==> CharDiffReaction(o).wrongCount == |q.tappedWrong| == |p.tappedWrong| + 1
    ensures var (q, o) := CharDiff.TapStep(diffAt, p, row, col);
            CharDiffReaction(o).WrongCell? ==>
              CharDiffReaction(o).penalty == ToastPenaltyAsWritten(|q.tappedWrong|) > ToastPenalty(|q.tappedWrong|)
  {
    if (row, col) == diffAt {
      CharDiff.TapHit(diffAt, p, row, col);
    } else {
      CharDiff.TapMiss(diffAt, p, row, col);
    }
  }

  /** The pair-matching branch: the page finishes when a connection completes
      the puzzle. */
  function PoetryReaction(a: PoetryConnect.TapAction): Reaction
  {
    if a.Connect? && a.isComplete then Succeed else NoReaction
  }

  /** A tap wins the pair matching exactly when it commits a declared pair that
      brings the connections up to the number of upper items. */
  lemma PoetryWin(upperCount: nat, pairs: seq<(int, int)>, p: PoetryConnect.Progress, id: int)
    ensures var (q, a) := PoetryConnect.TapStep(upperCount, pairs, p, id);
            PoetryReaction(a) == Succeed <==>
              && !PoetryConnect.Connected(p.connections, id) && p.selectedId.Some? && p.selectedId.value != id
              && PoetryConnect.IsDeclaredPair(pairs, p.selectedId.value, id)
              && |p.connections| + 1 >= upperCount
    ensures var (q, a) := PoetryConnect.TapStep(upperCount, pairs, p, id);
            PoetryReaction(a) == Succeed ==> q.isComplete && q.connections == p.connections + [(p.selectedId.value, id)]
  {
    if !PoetryConnect.Connected(p.connections, id) && p.selectedId.Some? && p.selectedId.value != id {
      PoetryConnect.TapResolves(upperCount, pairs, p, id);
    }
  }

  // ---------------------------------------------------------------------------
  // Hints
  // ---------------------------------------------------------------------------

  const WordHintHead: string := "成语的第一个字是\""
  const RowHintHead: string := "不同的字在第 "
  const RowHintTail: string := " 行附近"

  /** `provideHint()`: the answer's first glyph, the variant's row counted from
      1, the first line of the poem, or a general encouragement. */
  function HintFor(gameId: string, answer: string, diffAt: Option<(int, int)>): string
  {
    if gameId == "wordFind" then
      (if |answer| > 0 then WordHintHead + [answer[0]] + "\"" else "")
    else if gameId == "charDiff" then
      (if diffAt.Some? then RowHintHead + IntToString(diffAt.value.0 + 1) + RowHintTail else "")
    else if gameId == "poetryConnect" then "试试从第一句开始连线"
    else "仔细观察，你一定能找到答案！"
  }

  /** The word-search hint shows the answer's first glyph. */
  lemma WordHintShowsFirstGlyph(answer: string, diffAt: Option<(int, int)>)
    requires answer != ""
    ensures var h := HintFor("wordFind", answer, diffAt);
            |h| == |WordHintHead| + 2 && h[|WordHintHead|] == answer[0]
  {
  }

  /** The spot-the-difference hint tells rows apart: two positions with the
      same hint are on the same row. */
  lemma RowHintNamesRow(answer: string, a: (int, int), b: (int, int))
    requires HintFor("charDiff", answer, Some(a)) == HintFor("charDiff", answer, Some(b))
    ensures a.0 == b.0
  {
    var x := IntToString(a.0 + 1);
    var y := IntToString(b.0 + 1);
    var h := HintFor("charDiff", answer, Some(a));
    assert h == RowHintHead + x + RowHintTail;
    assert h == RowHintHead + y + RowHintTail;
    assert |x| == |y|;
    assert x == h[|RowHintHead|..|RowHintHead| + |x|];
    assert y == h[|RowHintHead|..|RowHintHead| + |y|];
    IntToStringInjective(a.0 + 1, b.0 + 1);
  }

  function LogicDiffAt(l: Option<Logic>): Option<(int, int)>
    reads LogicFrame(l)
  {
    if l.Some? && l.value.CharDiffGame? then l.value.cd.diffAt else None
  }

  // ---------------------------------------------------------------------------
  // The result of a game
  // ---------------------------------------------------------------------------

  /** The query of the redirect to the result page. */
  datatype ResultRequest = ResultRequest(gameId: string, level: int, success: bool, score: int,
                                         remaining: real, total: real)

  /** `calcFinalScore(remaining, total)` of the puzzle object. */
  function LogicFinalScore(l: Logic, remaining: real, total: real): int
    reads LogicObject(l)
  {
    match l
    case WordFindGame(wf) => WordFind.FinalScore(wf.wrongCount, remaining, total)
    case CharDiffGame(cd) => CharDiff.FinalScore(|cd.tappedWrong|, remaining, total)
    case PoetryGame(pc) => PoetryConnect.FinalScore(pc.wrongCount, remaining, total)
  }

  /** The `score` field of the puzzle object. */
  function LogicScore(l: Logic): int
    reads LogicObject(l)
  {
    match l
    case WordFindGame(wf) => wf.score
    case CharDiffGame(cd) => cd.score
    case PoetryGame(pc) => pc.score
  }

  /** The score `goResult` reports: the time-weighted final score for a win,
      the object's own score otherwise, 0 without an object. A win scores at
      least 10, and at most 100 when no more time remains than was given. */
  function ReportedScore(success: bool, l: Option<Logic>, remaining: real, total: real): (s: int)
    reads LogicFrame(l)
    ensures l.None? ==> s == 0
    ensures success && l.Some? ==> 10 <= s
    ensures success && l.Some? && remaining <= total ==> s <= 100
  {
    if l.None? then 0
    else if success then
      match l.value
      case WordFindGame(wf) =>
        WordFind.FinalScore(wf.wrongCount, remaining, total)
      case CharDiffGame(cd) =>
        CharDiff.FinalScore(|cd.tappedWrong|, remaining, total)
      case PoetryGame(pc) =>
        PoetryConnect.FinalScore(pc.wrongCount, remaining, total)
    else LogicScore(l.value)
  }

  /** Whether the puzzle object is solved. */
  ghost predicate Solved(l: Logic)
    reads LogicObject(l)
  {
    match l
    case WordFindGame(wf) => wf.isComplete
    case CharDiffGame(cd) => cd.revealed
    case PoetryGame(pc) => pc.isComplete
  }

  /** The game ids whose tap branch the page has, matched with the object kind. */
  predicate Handles(gameId: string, l: Logic)
  {
    || (gameId == "wordFind" && l.WordFindGame?)
    || (gameId == "charDiff" && l.CharDiffGame?)
    || (gameId == "poetryConnect" && l.PoetryGame?)
  }

  // ---------------------------------------------------------------------------
  // One board tap per game
  // ---------------------------------------------------------------------------

  /** A spot-the-difference tap as the page plays it. */
  function CharDiffPageStep(diffAt: (int, int), p: CharDiff.Progress, row: int, col: int): (CharDiff.Progress, Reaction)
  {
    var (q, o) := CharDiff.TapStep(diffAt, p, row, col);
    (q, CharDiffReaction(o))
  }

  /** A pair-matching tap as the page plays it. */
  function PoetryPageStep(upperCount: nat, pairs: seq<(int, int)>, p: PoetryConnect.Progress, id: int)
    : (PoetryConnect.Progress, Reaction)
  {
    var (q, a) := PoetryConnect.TapStep(upperCount, pairs, p, id);
    (q, PoetryReaction(a))
  }

  /** The word search after a board tap at (px, py) from progress `p`: the cell
      under the point took the page's step, and a point on no cell changed
      nothing. */
  ghost predicate WordFindTapped(wf: WordFind.WordFindLogic, p: WordFind.Progress, px: real, py: real, reaction: Reaction)
    reads wf
  {
    && IsGrid(wf.matrix, wf.rows, wf.cols)
    && (forall r, c :: 0 <= r < wf.rows && 0 <= c < wf.cols && InCell(px, py, r, c, wf.cellSize, WordFind.CellGap) ==>
          (wf.State(), reaction) == WordFindPageStep(wf.matrix, wf.rows, wf.cols, wf.answer, p, r, c))
    && ((forall r, c :: 0 <= r < wf.rows && 0 <= c < wf.cols ==> !InCell(px, py, r, c, wf.cellSize, WordFind.CellGap)) ==>
          wf.State() == p && reaction == NoReaction)
  }

  /** The spot-the-difference board after a board tap at (px, py) from `p`. */
  ghost predicate CharDiffTapped(cd: CharDiff.CharDiffLogic, p: CharDiff.Progress, px: real, py: real, reaction: Reaction)
    reads cd
  {
    && cd.diffAt.Some?
    && (forall r, c :: 0 <= r < cd.rows && 0 <= c < cd.cols && InCell(px, py, r, c, cd.cellSize, CharDiff.CellGap) ==>
          (cd.State(), reaction) == CharDiffPageStep(cd.diffAt.value, p, r, c))
    && ((forall r, c :: 0 <= r < cd.rows && 0 <= c < cd.cols ==> !InCell(px, py, r, c, cd.cellSize, CharDiff.CellGap)) ==>
          cd.State() == p && reaction == NoReaction)
  }

  /** The pair matching after a board tap at (px, py) from `p`: the item under
      the point was tapped, and a point on no item changed nothing. */
  ghost predicate PoetryTapped(pc: PoetryConnect.PoetryConnectLogic, p: PoetryConnect.Progress, px: real, py: real,
                               reaction: Reaction)
    reads pc
  {
    && |pc.boxes| == |pc.items|
    && (forall i :: 0 <= i < |pc.items| && PoetryConnect.HitBox(pc.boxes[i], px, py) ==>
          (pc.State(), reaction) == PoetryPageStep(PoetryConnect.UpperCount(pc.items), pc.pairs, p, pc.items[i].id))
    && ((forall i :: 0 <= i < |pc.items| ==> !PoetryConnect.HitBox(pc.boxes[i], px, py)) ==>
          pc.State() == p && reaction == NoReaction)
  }

  /** The word-search branch of `handleTap`, with the page's reset of a full
      wrong selection. */
  method WordFindTap(wf: WordFind.WordFindLogic, px: real, py: real) returns (reaction: Reaction, tapped: Option<(int, int)>)
    requires wf.Valid()
    modifies wf
    ensures wf.Valid()
    ensures wf.answer == old(wf.answer) && wf.matrix == old(wf.matrix) && wf.cells == old(wf.cells)
    ensures wf.rows == old(wf.rows) && wf.cols == old(wf.cols) && wf.cellSize == old(wf.cellSize)
    ensures tapped.None? ==> reaction == NoReaction && unchanged(wf)
    ensures tapped.Some? ==> 0 <= tapped.value.0 < wf.rows && 0 <= tapped.value.1 < wf.cols
    ensures WordFindTapped(wf, old(wf.State()), px, py, reaction)
    ensures reaction == Succeed ==> wf.isComplete
  {
    tapped := wf.GetCellByPoint(px, py);
    if tapped.None? {
      return NoReaction, None;
    }
    var res := wf.TapCell(tapped.value.0, tapped.value.1);
    reaction := WordFindReaction(res);
    if reaction == WrongWord {
      wf.ClearSelection();
    } else if reaction == Succeed {
      WordFindWin(wf.matrix, wf.rows, wf.cols, wf.answer, old(wf.State()), tapped.value.0, tapped.value.1);
    }
  }

  /** The spot-the-difference branch of `handleTap`. */
  method CharDiffTap(cd: CharDiff.CharDiffLogic, px: real, py: real) returns (reaction: Reaction, tapped: Option<(int, int)>)
    requires cd.Valid() && cd.diffAt.Some?
    modifies cd
    ensures cd.Valid() && cd.diffAt == old(cd.diffAt) && cd.matrix == old(cd.matrix) && cd.cells == old(cd.cells)
    ensures cd.rows == old(cd.rows) && cd.cols == old(cd.cols) && cd.cellSize == old(cd.cellSize) && cd.score == old(cd.score)
    ensures tapped.None? ==> reaction == NoReaction && unchanged(cd)
    ensures tapped.Some? ==> 0 <= tapped.value.0 < cd.rows && 0 <= tapped.value.1 < cd.cols
    ensures CharDiffTapped(cd, old(cd.State()), px, py, reaction)
    ensures reaction == Succeed ==> cd.revealed
  {
    tapped := cd.GetCellByPoint(px, py);
    if tapped.None? {
      return NoReaction, None;
    }
    var o := cd.Tap(tapped.value.0, tapped.value.1);
    reaction := CharDiffReaction(o);
    if reaction == Succeed {
      CharDiffWin(cd.diffAt.value, old(cd.State()), tapped.value.0, tapped.value.1);
      CharDiff.TapHit(cd.diffAt.value, old(cd.State()), tapped.value.0, tapped.value.1);
    }
  }

  /** The pair-matching branch of `handleTap`: the hit item's id is tapped. */
  method PoetryTap(pc: PoetryConnect.PoetryConnectLogic, px: real, py: real) returns (reaction: Reaction, tapped: Option<nat>)
    requires pc.Valid()
    modifies pc
    ensures pc.Valid() && pc.items == old(pc.items) && pc.pairs == old(pc.pairs) && pc.boxes == old(pc.boxes)
    ensures pc.score == old(pc.score)
    ensures tapped.None? ==> reaction == NoReaction && unchanged(pc)
    ensures tapped.Some? ==> tapped.value < |pc.items|
    ensures PoetryTapped(pc, old(pc.State()), px, py, reaction)
    ensures reaction == Succeed ==> pc.isComplete
  {
    tapped := pc.GetItemByPoint(px, py);
    if tapped.None? {
      return NoReaction, None;
    }
    var a := pc.TapItem(pc.items[tapped.value].id);
    reaction := PoetryReaction(a);
    if reaction == Succeed {
      PoetryWin(PoetryConnect.UpperCount(pc.items), pc.pairs, old(pc.State()), pc.items[tapped.value].id);
    }
  }

  /** The board part of `handleTap` on the puzzle object alone: the branch of
      the puzzle's game runs, and a winning tap leaves the puzzle solved. */
  method TapPuzzle(l: Logic, px: real, py: real) returns (reaction: Reaction)
    requires LogicValid(l) && (l.CharDiffGame? ==> l.cd.diffAt.Some?)
    modifies LogicObject(l)
    ensures LogicValid(l)
    ensures reaction == Succeed ==> Solved(l)
    ensures l.WordFindGame? ==> WordFindTapped(l.wf, old(l.wf.State()), px, py, reaction)
    ensures l.CharDiffGame? ==> CharDiffTapped(l.cd, old(l.cd.State()), px, py, reaction)
    ensures l.PoetryGame? ==> PoetryTapped(l.pc, old(l.pc.State()), px, py, reaction)
  {
    var tapped;
    match l {
    case WordFindGame(wf) =>
      reaction, tapped := WordFindTap(wf, px, py);
    case CharDiffGame(cd) =>
      reaction, tapped := CharDiffTap(cd, px, py);
    case PoetryGame(pc) =>
      var item;
      reaction, item := PoetryTap(pc, px, py);
    }
  }

  // ---------------------------------------------------------------------------
  // The page
  // ---------------------------------------------------------------------------

  /** The page fields no tap, tick or result changes. */
  datatype PageSettings = PageSettings(gameId: string, level: int, resetProgress: bool, autoStart: bool,
                               answer: string, difficulty: string, customTimeLimit: Option<int>, dataReady: bool)

  class GamePage {
    /** The scheduler the page's timers run on. */
    const host: Timer.Host
    var gameId: string
    var level: int
    var resetProgress: bool
    var autoStart: bool
    var answer: string
    var difficulty: string
    var customTimeLimit: Option<int>
    var dataReady: bool
    var hintUsed: bool
    var gameState: GameState
    var timerTotal: real
    var timerRemaining: real
    var timer: Timer.GameTimer?
    var logic: Option<Logic>

    /** The page's timer runs on the page's scheduler. */
    ghost predicate Valid()
      reads this`timer, timer
    {
      timer != null ==> timer.host == host
    }

    /** The puzzle object, once built, keeps its own invariant. */
    ghost predicate PuzzleValid()
      reads this`logic, LogicFrame(logic)
    {
      logic.Some? ==> LogicValid(logic.value)
    }

    function Settings(): PageSettings
      reads this
    {
      PageSettings(gameId, level, resetProgress, autoStart, answer, difficulty, customTimeLimit, dataReady)
    }

    /** The clock after a start at `now`: playing, with a fresh timer over the
        whole budget. */
    ghost predicate Running(now: int, handle: int)
      reads this, timer
    {
      && gameState == Playing
      && timerTotal == timerRemaining == TimeBudget(customTimeLimit, gameId, difficulty) as real
      && timer != null && timer.host == host
      && timer.State() == Timer.StartStep(Timer.NewTimer(timerTotal), host, now, handle)
    }

    /** `onLoad(options)`; an absent option is "". */
    constructor (gameIdParam: string, levelParam: string, resetParam: string, autoStartParam: string, host: Timer.Host)
      ensures Valid() && PuzzleValid() && this.host == host
      ensures gameId == (if gameIdParam == "" then "wordFind" else gameIdParam)
      ensures level == LevelParam(levelParam) && level != 0
      ensures resetProgress == (resetParam == "1") && autoStart == (autoStartParam == "1")
      ensures gameState == Ready && logic.None? && timer == null && !hintUsed && !dataReady
      ensures difficulty == "easy" && customTimeLimit.None? && timerTotal == 0.0 && timerRemaining == 0.0
    {
      this.host := host;
      gameId := if gameIdParam == "" then "wordFind" else gameIdParam;
      level := LevelParam(levelParam);
      resetProgress := resetParam == "1";
      autoStart := autoStartParam == "1";
      answer := "";
      difficulty := "easy";
      customTimeLimit := None;
      dataReady := false;
      hintUsed := false;
      gameState := Ready;
      timerTotal := 0.0;
      timerRemaining := 0.0;
      timer := null;
      logic := None;
    }

    /** The difficulty the page asks the server for. */
    function RequestedDifficulty(): (d: string)
      reads this
      ensures d == GetDifficulty(level)
    {
      GetDifficulty(level)
    }

    /** `stopTimer()`. */
    method StopTimer()
      requires Valid()
      modifies timer
      ensures Valid()
      ensures timer != null ==> timer.State() == Timer.StopStep(old(timer.State()), host)
      ensures logic.Some? ==> unchanged(LogicObject(logic.value))
    {
      if logic.Some? {
        LogicApart(logic.value, this, timer);
      }
      if timer != null {
        timer.Stop();
      }
    }

    /** `startTimer()` with the state change that precedes it: playing, both
        clocks at the budget, the old timer stopped and a new one started. */
    method StartPlaying(now: int, handle: int)
      requires Valid()
      modifies this, timer
      ensures Valid() && Running(now, handle) && fresh(timer)
      ensures Settings() == old(Settings()) && hintUsed == old(hintUsed)
      ensures logic == old(logic) && (logic.Some? ==> unchanged(LogicObject(logic.value)))
      ensures old(timer) != null ==> old(timer).State() == Timer.StopStep(old(timer.State()), host)
    {
      StopTimer();
      var total := TimeBudget(customTimeLimit, gameId, difficulty) as real;
      var t := new Timer.GameTimer(total, host);
      t.Start(now, handle);
      if logic.Some? {
        LogicApart(logic.value, this, t);
      }
      gameState, timerTotal, timerRemaining, timer := Playing, total, total, t;
    }

    /** The success callback of `loadLevelAndStart`, with the random draws the
        constructor takes: store the answer, difficulty and time limit, build
        the puzzle, and start at once when the page was opened with
        `autoStart`. A constructor that throws leaves the page waiting. */
    method LoadLevelData(res: LevelResponse, picks: seq<nat>, swaps: seq<nat>, dr: nat, dc: nat, now: int, handle: int)
      returns (loaded: bool)
      requires Valid() && PuzzleValid()
      requires CanBuild(LevelSpec(gameId, res), picks, swaps, dr, dc)
      modifies this, timer
      ensures Valid() && PuzzleValid()
      ensures gameId == old(gameId) && level == old(level) && autoStart == old(autoStart)
      ensures resetProgress == old(resetProgress) && hintUsed == old(hintUsed)
      ensures answer == res.answer && difficulty == ResponseDifficulty(res.difficulty)
      ensures customTimeLimit == CustomTimeLimit(res.timeLimit) && dataReady
      ensures loaded <==> !BuildFails(LevelSpec(gameId, res))
      ensures loaded ==> logic.Some? && fresh(LogicObject(logic.value)) && Built(View(logic.value), LevelSpec(gameId, res))
      ensures loaded && autoStart ==> Running(now, handle) && fresh(timer)
      ensures loaded && autoStart && old(timer) != null ==> old(timer).State() == Timer.StopStep(old(timer.State()), host)
      ensures !(loaded && autoStart) ==> gameState == old(gameState) && timer == old(timer) && (timer != null ==> unchanged(timer))
      ensures !(loaded && autoStart) ==> timerTotal == old(timerTotal) && timerRemaining == old(timerRemaining)
      ensures !loaded ==> logic == old(logic)
    {
      SetResponse(res);
      loaded := CreateLogic(LevelSpec(gameId, res), picks, swaps, dr, dc);
      StartIfAsked(loaded, now, handle);
    }

    /** The end of the success callback: start the clock when the puzzle was
        built and the page was opened with `autoStart`. */
    method StartIfAsked(loaded: bool, now: int, handle: int)
      requires Valid() && PuzzleValid()
      modifies this, timer
      ensures Valid() && PuzzleValid()
      ensures Settings() == old(Settings()) && hintUsed == old(hintUsed) && logic == old(logic)
      ensures logic.Some? ==> View(logic.value) == old(View(logic.value))
      ensures loaded && autoStart ==> Running(now, handle) && fresh(timer)
      ensures loaded && autoStart && old(timer) != null ==> old(timer).State() == Timer.StopStep(old(timer.State()), host)
      ensures !(loaded && autoStart) ==> gameState == old(gameState) && timer == old(timer) && (timer != null ==> unchanged(timer))
      ensures !(loaded && autoStart) ==> timerTotal == old(timerTotal) && timerRemaining == old(timerRemaining)
    {
      if logic.Some? {
        LogicApart(logic.value, this, timer);
      }
      if loaded && autoStart {
        StartPlaying(now, handle);
      }
    }

    /** The fields the success callback copies from the answer. */
    method SetResponse(res: LevelResponse)
      requires PuzzleValid()
      modifies this
      ensures PuzzleValid() && logic == old(logic)
      ensures gameId == old(gameId) && level == old(level) && autoStart == old(autoStart)
      ensures resetProgress == old(resetProgress) && hintUsed == old(hintUsed)
      ensures gameState == old(gameState) && timer == old(timer)
      ensures timerTotal == old(timerTotal) && timerRemaining == old(timerRemaining)
      ensures answer == res.answer && difficulty == ResponseDifficulty(res.difficulty)
      ensures customTimeLimit == CustomTimeLimit(res.timeLimit) && dataReady
    {
      if logic.Some? {
        LogicApart(logic.value, this, timer);
      }
      answer, difficulty, customTimeLimit, dataReady :=
        res.answer, ResponseDifficulty(res.difficulty), CustomTimeLimit(res.timeLimit), true;
    }

    /** `createLogic()`: the puzzle object replaces the old one unless its
        constructor throws. */
    method CreateLogic(spec: LogicSpec, picks: seq<nat>, swaps: seq<nat>, dr: nat, dc: nat) returns (built: bool)
      requires PuzzleValid() && CanBuild(spec, picks, swaps, dr, dc)
      modifies this`logic
      ensures PuzzleValid()
      ensures built <==> !BuildFails(spec)
      ensures built ==> logic.Some? && fresh(LogicObject(logic.value)) && Built(View(logic.value), spec)
      ensures !built ==> logic == old(logic)
    {
      var made := BuildLogic(spec, picks, swaps, dr, dc);
      if made.Failure? {
        return false;
      }
      logic := Some(made.value);
      built := true;
    }

    /** `onStartGame()`. */
    method OnStartGame(now: int, handle: int)
      requires Valid()
      modifies this, timer
      ensures Valid() && Running(now, handle) && fresh(timer)
      ensures Settings() == old(Settings()) && hintUsed == old(hintUsed)
      ensures logic == old(logic) && (logic.Some? ==> unchanged(LogicObject(logic.value)))
      ensures old(timer) != null ==> old(timer).State() == Timer.StopStep(old(timer.State()), host)
    {
      StartPlaying(now, handle);
    }

    /** `goResult(success)`: finish, stop the clock and report the score. */
    method GoResult(success: bool) returns (req: ResultRequest)
      requires Valid()
      modifies this, timer
      ensures Valid() && Settings() == old(Settings()) && hintUsed == old(hintUsed)
      ensures logic == old(logic) && (logic.Some? ==> unchanged(LogicObject(logic.value)))
      ensures gameState == Finished && timer == old(timer)
      ensures timerTotal == old(timerTotal) && timerRemaining == old(timerRemaining)
      ensures timer != null ==> timer.State() == Timer.StopStep(old(timer.State()), host)
      ensures req == ResultRequest(gameId, level, success, ReportedScore(success, logic, timerRemaining, timerTotal),
                                   timerRemaining, timerTotal)
    {
      StopTimer();
      var score := ScoreToReport(success);
      if logic.Some? {
        LogicApart(logic.value, this, timer);
      }
      gameState := Finished;
      req := ResultRequest(gameId, level, success, score, timerRemaining, timerTotal);
    }

    /** The score `goResult` reads off the puzzle object. */
    method ScoreToReport(success: bool) returns (score: int)
      ensures score == ReportedScore(success, logic, timerRemaining, timerTotal)
    {
      score := 0;
      if logic.Some? {
        match logic.value {
        case WordFindGame(wf) =>
          score := wf.score;
          if success {
            score := wf.CalcFinalScore(timerRemaining, timerTotal);
          }
        case CharDiffGame(cd) =>
          score := cd.score;
          if success {
            score := cd.CalcFinalScore(timerRemaining, timerTotal);
          }
        case PoetryGame(pc) =>
          score := pc.score;
          if success {
            score := pc.CalcFinalScore(timerRemaining, timerTotal);
          }
        }
      }
    }

    /** The timer's callbacks: a frame copies the remaining time, the timeout
        zeroes it and finishes the game as a loss. */
    method OnTimerTick(now: int, handle: int) returns (outcome: Timer.TickOutcome, req: Option<ResultRequest>)
      requires Valid() && timer != null
      modifies this, timer
      ensures Valid() && Settings() == old(Settings()) && timer == old(timer)
      ensures logic == old(logic) && (logic.Some? ==> unchanged(LogicObject(logic.value)))
      ensures outcome == Timer.TickStep(old(timer.State()), host, now, handle).1
      ensures timer.State() == Timer.TickStep(old(timer.State()), host, now, handle).0
      ensures outcome == Timer.Idle ==> req.None? && unchanged(this)
      ensures outcome == Timer.Frame ==> req.None? && gameState == old(gameState) && timerRemaining == timer.remaining
      ensures outcome == Timer.FrameThenTimeout ==>
                && gameState == Finished && timerRemaining == 0.0
                && req == Some(ResultRequest(gameId, level, false, ReportedScore(false, logic, 0.0, timerTotal), 0.0, timerTotal))
    {
      if logic.Some? {
        LogicApart(logic.value, this, timer);
      }
      outcome := timer.Tick(now, handle);
      req := None;
      if outcome == Timer.Frame {
        timerRemaining := timer.remaining;
      } else if outcome == Timer.FrameThenTimeout {
        timerRemaining := 0.0;
        var r := GoResult(false);
        req := Some(r);
      }
    }

    /** `showHint()`: one hint per game. */
    method ShowHint() returns (hint: Option<string>)
      modifies this
      ensures hintUsed
      ensures old(hintUsed) ==> hint.None?
      ensures !old(hintUsed) ==> hint == Some(HintFor(gameId, answer, LogicDiffAt(logic)))
      ensures Settings() == old(Settings()) && gameState == old(gameState) && timer == old(timer)
      ensures logic == old(logic) && (logic.Some? ==> unchanged(LogicObject(logic.value)))
      ensures timerTotal == old(timerTotal) && timerRemaining == old(timerRemaining)
    {
      if logic.Some? {
        LogicApart(logic.value, this, timer);
      }
      if hintUsed {
        return None;
      }
      hintUsed := true;
      hint := Some(HintFor(gameId, answer, LogicDiffAt(logic)));
    }

    /** The board part of `handleTap` (board coordinates): only the branch for
        the page's game runs, and a winning tap finishes the game. */
    method HandleBoardTap(px: real, py: real) returns (reaction: Reaction, req: Option<ResultRequest>)
      requires Valid() && PuzzleValid()
      requires logic.Some? && Handles(gameId, logic.value) && logic.value.CharDiffGame? ==> logic.value.cd.diffAt.Some?
      modifies this, timer, LogicFrame(logic)
      ensures Valid() && PuzzleValid() && Settings() == old(Settings()) && logic == old(logic) && hintUsed == old(hintUsed)
      ensures req.Some? <==> reaction == Succeed
      ensures reaction == Succeed ==>
                && logic.Some? && Solved(logic.value) && gameState == Finished
                && req.value == ResultRequest(gameId, level, true, ReportedScore(true, logic, timerRemaining, timerTotal),
                                              timerRemaining, timerTotal)
      ensures reaction != Succeed ==> unchanged(this) && timer == old(timer) && (timer != null ==> unchanged(timer))
      ensures logic.None? || !Handles(gameId, logic.value) ==>
                reaction == NoReaction && (logic.Some? ==> unchanged(LogicObject(logic.value)))
      ensures logic.Some? && Handles(gameId, logic.value) && logic.value.WordFindGame? ==>
                WordFindTapped(logic.value.wf, old(logic.value.wf.State()), px, py, reaction)
      ensures logic.Some? && Handles(gameId, logic.value) && logic.value.CharDiffGame? ==>
                CharDiffTapped(logic.value.cd, old(logic.value.cd.State()), px, py, reaction)
      ensures logic.Some? && Handles(gameId, logic.value) && logic.value.PoetryGame? ==>
                PoetryTapped(logic.value.pc, old(logic.value.pc.State()), px, py, reaction)
    {
      if logic.None? || !Handles(gameId, logic.value) {
        return NoReaction, None;
      }
      LogicApart(logic.value, this, timer);
      reaction := TapPuzzle(logic.value, px, py);
      req := None;
      if reaction == Succeed {
        var r := GoResult(true);
        req := Some(r);
      }
    }

    /** `onTouchEnd`: route the touch, then start, hint or tap. */
    method OnTouchEnd(t: Touch, now: int, handle: int) returns (route: Route, reaction: Reaction, req: Option<ResultRequest>)
      requires Valid() && PuzzleValid()
      requires logic.Some? && Handles(gameId, logic.value) && logic.value.CharDiffGame? ==> logic.value.cd.diffAt.Some?
      modifies this, timer, LogicFrame(logic)
      ensures Valid() && PuzzleValid() && logic == old(logic)
      ensures route == RouteTouch(old(gameState), t)
      ensures route == Ignore ==> reaction == NoReaction && req.None? && unchanged(this)
      ensures route == StartGame ==> Running(now, handle) && reaction == NoReaction && req.None?
      ensures req.Some? ==> route.BoardTap? && reaction == Succeed && gameState == Finished && req.value.success
      ensures !route.BoardTap? && logic.Some? ==> unchanged(LogicObject(logic.value))
      ensures route.BoardTap? && logic.Some? && Handles(gameId, logic.value) && logic.value.WordFindGame? ==>
                WordFindTapped(logic.value.wf, old(logic.value.wf.State()), route.x, route.y, reaction)
      ensures route.BoardTap? && logic.Some? && Handles(gameId, logic.value) && logic.value.CharDiffGame? ==>
                CharDiffTapped(logic.value.cd, old(logic.value.cd.State()), route.x, route.y, reaction)
      ensures route.BoardTap? && logic.Some? && Handles(gameId, logic.value) && logic.value.PoetryGame? ==>
                PoetryTapped(logic.value.pc, old(logic.value.pc.State()), route.x, route.y, reaction)
    {
      route := RouteTouch(gameState, t);
      reaction, req := NoReaction, None;
      match route
      case StartGame =>
        OnStartGame(now, handle);
      case ShowHint =>
        var _ := ShowHint();
      case BoardTap(x, y) =>
        reaction, req := HandleBoardTap(x, y);
      case Ignore =>
    }
  }
}

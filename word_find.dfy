/** The word-search puzzle (`WordFindLogic`): the glyphs of a four-glyph idiom are
    hidden among filler glyphs on a grid, and the player taps them in order.
    `Math.random` is replaced by two inputs: `picks`, the pool index of each
    filler, and `swaps`, the partner of each step of the shuffle. */
module WordFind {
  import opened Common
  import opened Grid
  import Shuffle

  /** Space between two cells, in layout units. */
  const CellGap: nat := 6

  /** A selection is full, and is judged, at this many glyphs. */
  const MaxSelected: nat := 4

  /** Board shape and cell size of a difficulty. */
  datatype Config = Config(cols: nat, rows: nat, cellSize: nat)

  const DifficultyConfig: map<string, Config> := map[
    "easy" := Config(4, 4, 72),
    "normal" := Config(5, 5, 64),
    "hard" := Config(5, 7, 52)
  ]

  /** `options.difficulty || 'easy'`. */
  function DifficultyOrDefault(difficulty: string): (d: string)
    ensures d != ""
    ensures difficulty != "" ==> d == difficulty
  {
    if difficulty == "" then "easy" else difficulty
  }

  /** `DIFFICULTY_CONFIG[difficulty] || DIFFICULTY_CONFIG.easy`. */
  function ConfigFor(difficulty: string): (cfg: Config)
    ensures cfg in DifficultyConfig.Values
    ensures 0 < cfg.cols && 0 < cfg.rows && cfg.cols * cfg.rows <= 35
  {
    if difficulty in DifficultyConfig then DifficultyConfig[difficulty] else DifficultyConfig["easy"]
  }

  /** Every difficulty the table does not know, hell among them, plays the easy board. */
  lemma UnknownDifficultyIsEasy(difficulty: string)
    requires difficulty !in DifficultyConfig
    ensures ConfigFor(difficulty) == Config(4, 4, 72)
    ensures ConfigFor("hell") == Config(4, 4, 72)
  {
  }

  /** The filler glyphs. */
  const FillerPool: string := "风云雨雷电山河湖海川日月星辰天地人和春秋冬夏东西南北金木水火土梅兰竹菊松柏桃李花鸟鱼虫龙凤鹤鹿琴棋书画诗词歌赋仁义礼智信忠孝勇勤俭"

  /** The glyphs of `s` that do not occur in `answer`, in order. */
  function Without(s: string, answer: string): (p: string)
    ensures |p| <= |s|
    ensures forall k :: 0 <= k < |p| ==> p[k] in s && p[k] !in answer
    ensures forall k :: 0 <= k < |s| && s[k] !in answer ==> s[k] in p
  {
    if s == [] then [] else (if s[0] in answer then [] else [s[0]]) + Without(s[1..], answer)
  }

  /** Filtering keeps order and multiplicity: it distributes over
      concatenation, and a single glyph survives exactly when the answer lacks it. */
  lemma {:induction false} WithoutAppend(s1: string, s2: string, answer: string)
    ensures Without(s1 + s2, answer) == Without(s1, answer) + Without(s2, answer)
    ensures forall c :: Without([c], answer) == if c in answer then [] else [c]
  {
    if s1 != [] {
      assert (s1 + s2)[1..] == s1[1..] + s2;
      WithoutAppend(s1[1..], s2, answer);
    } else {
      assert s1 + s2 == s2;
    }
    forall c
      ensures Without([c], answer) == if c in answer then [] else [c]
    {
      assert [c][1..] == [];
    }
  }

  /** The filler pool of a board: `FILLER_POOL` without the answer's glyphs. */
  function Pool(answer: string): string
  {
    Without(FillerPool, answer)
  }

  /** Whether a pick sequence is a possible outcome of the fill loop's draws. */
  predicate ValidPicks(pool: string, picks: seq<nat>)
  {
    forall k :: 0 <= k < |picks| ==> picks[k] < |pool|
  }

  /** The glyphs the fill loop appends, one pool entry per draw. */
  function Fillers(pool: string, picks: seq<nat>): (f: string)
    requires ValidPicks(pool, picks)
    ensures |f| == |picks|
    ensures forall k :: 0 <= k < |f| ==> f[k] == pool[picks[k]]
  {
    if picks == [] then [] else Fillers(pool, picks[..|picks| - 1]) + [pool[picks[|picks| - 1]]]
  }

  /** No filler glyph occurs in the answer. */
  lemma FillersAvoidAnswer(pool: string, answer: string, picks: seq<nat>)
    requires ValidPicks(Without(pool, answer), picks)
    ensures forall k :: 0 <= k < |picks| ==> Fillers(Without(pool, answer), picks)[k] !in answer
  {
    var f := Fillers(Without(pool, answer), picks);
    forall k | 0 <= k < |picks|
      ensures f[k] !in answer
    {
      assert f[k] == Without(pool, answer)[picks[k]];
    }
  }

  /** One entry of the selection: the tapped cell and its glyph. */
  datatype Selected = Selected(row: int, col: int, glyph: char)

  /** The glyphs of the selection, concatenated in tap order. */
  function Spelled(sel: seq<Selected>): (s: string)
    ensures |s| == |sel|
    ensures forall k :: 0 <= k < |sel| ==> s[k] == sel[k].glyph
  {
    if sel == [] then [] else Spelled(sel[..|sel| - 1]) + [sel[|sel| - 1].glyph]
  }

  /** Position of the first selection entry at the cell, if any. */
  function IndexOf(sel: seq<Selected>, row: int, col: int): (k: int)
    ensures -1 <= k < |sel|
    ensures k >= 0 ==> sel[k].row == row && sel[k].col == col
    ensures k >= 0 ==> forall j :: 0 <= j < k ==> !(sel[j].row == row && sel[j].col == col)
    ensures k < 0 ==> forall j :: 0 <= j < |sel| ==> !(sel[j].row == row && sel[j].col == col)
  {
    if sel == [] then -1
    else if sel[0].row == row && sel[0].col == col then 0
    else
      var k := IndexOf(sel[1..], row, col);
      if k < 0 then -1 else k + 1
  }

  /** What `tapCell` answers: `{success: false}`, the deselection
      `{success: true, isComplete: false}`, or the full answer after an append. */
  datatype TapResult =
    | Rejected
    | Deselected
    | Appended(isComplete: bool, isFull: bool, isCorrect: bool)

  /** Score of a solved board: 100, less 10 for every tap beyond the answer's length,
      and never below 10. */
  function SolvedScore(attempts: int, answerLength: int): (s: int)
    ensures 10 <= s
    ensures attempts >= answerLength ==> s <= 100
    ensures attempts == answerLength ==> s == 100
  {
    Max(10, 100 - (attempts - answerLength) * 10)
  }

  /** The part of a board's state that taps change. */
  datatype Progress = Progress(
    selected: seq<Selected>,
    attempts: nat,
    wrongCount: nat,
    isComplete: bool,
    score: int)

  /** The selection holds at most four distinct cells of the board, each with the
      glyph the board shows there, and no more entries than taps so far. */
  ghost predicate SelectionValid(matrix: seq<seq<char>>, rows: nat, cols: nat, p: Progress)
    requires IsGrid(matrix, rows, cols)
  {
    && |p.selected| <= MaxSelected
    && (forall k :: 0 <= k < |p.selected| ==>
          0 <= p.selected[k].row < rows && 0 <= p.selected[k].col < cols &&
          p.selected[k].glyph == matrix[p.selected[k].row][p.selected[k].col])
    && (forall i, j :: 0 <= i < j < |p.selected| ==>
          !(p.selected[i].row == p.selected[j].row && p.selected[i].col == p.selected[j].col))
    && |p.selected| <= p.attempts
  }

  /** The selection without its entry at `k`, the others in order. */
  function RemoveAt(sel: seq<Selected>, k: nat): (r: seq<Selected>)
    requires k < |sel|
    ensures |r| == |sel| - 1
    ensures forall j :: 0 <= j < k ==> r[j] == sel[j]
    ensures forall j :: k <= j < |r| ==> r[j] == sel[j + 1]
  {
    sel[..k] + sel[k + 1..]
  }

  /** What `tapCell(row, col)` does to the progress on a board, and what it answers. */
  function TapStep(matrix: seq<seq<char>>, rows: nat, cols: nat, answer: string, p: Progress,
                   row: int, col: int): (Progress, TapResult)
    requires IsGrid(matrix, rows, cols)
  {
    if !(0 <= row < rows && 0 <= col < cols) then (p, Rejected)
    else
      var k := IndexOf(p.selected, row, col);
      if k >= 0 then (p.(selected := RemoveAt(p.selected, k)), Deselected)
      else if |p.selected| >= MaxSelected then (p, Rejected)
      else
        var sel := p.selected + [Selected(row, col, matrix[row][col])];
        var attempts := p.attempts + 1;
        var complete := Spelled(sel) == answer;
        var full := |sel| == MaxSelected;
        (Progress(sel, attempts,
                  if full && !complete then p.wrongCount + 1 else p.wrongCount,
                  complete,
                  if complete then SolvedScore(attempts, |answer|) else p.score),
         Appended(complete, full, complete))
  }

  /** Every tap keeps the selection valid: in particular it never exceeds four cells
      and never holds a cell twice. */
  lemma TapKeepsSelectionValid(matrix: seq<seq<char>>, rows: nat, cols: nat, answer: string, p: Progress,
                               row: int, col: int)
    requires IsGrid(matrix, rows, cols) && SelectionValid(matrix, rows, cols, p)
    ensures SelectionValid(matrix, rows, cols, TapStep(matrix, rows, cols, answer, p, row, col).0)
  {
    if 0 <= row < rows && 0 <= col < cols {
      var k := IndexOf(p.selected, row, col);
      if k >= 0 {
        RemoveKeepsValid(matrix, rows, cols, p, k);
      } else if |p.selected| < MaxSelected {
        AppendKeepsValid(matrix, rows, cols, answer, p, row, col);
      }
    }
  }

  lemma RemoveKeepsValid(matrix: seq<seq<char>>, rows: nat, cols: nat, p: Progress, k: nat)
    requires IsGrid(matrix, rows, cols) && SelectionValid(matrix, rows, cols, p) && k < |p.selected|
    ensures SelectionValid(matrix, rows, cols, p.(selected := RemoveAt(p.selected, k)))
  {
    var r := RemoveAt(p.selected, k);
    forall i | 0 <= i < |r|
      ensures 0 <= r[i].row < rows && 0 <= r[i].col < cols && r[i].glyph == matrix[r[i].row][r[i].col]
    {
      assert r[i] == p.selected[if i < k then i else i + 1];
    }
    forall i, j | 0 <= i < j < |r|
      ensures !(r[i].row == r[j].row && r[i].col == r[j].col)
    {
      var i' := if i < k then i else i + 1;
      var j' := if j < k then j else j + 1;
      assert r[i] == p.selected[i'] && r[j] == p.selected[j'];
    }
  }

  lemma AppendKeepsValid(matrix: seq<seq<char>>, rows: nat, cols: nat, answer: string, p: Progress,
                         row: int, col: int)
    requires IsGrid(matrix, rows, cols) && SelectionValid(matrix, rows, cols, p)
    requires 0 <= row < rows && 0 <= col < cols && IndexOf(p.selected, row, col) < 0
    requires |p.selected| < MaxSelected
    ensures SelectionValid(matrix, rows, cols, TapStep(matrix, rows, cols, answer, p, row, col).0)
  {
    var q := TapStep(matrix, rows, cols, answer, p, row, col).0;
    assert q.selected == p.selected + [Selected(row, col, matrix[row][col])];
  }

  /** A refused tap changes nothing: a cell off the board, or a new cell when four
      are already selected. */
  lemma TapRejected(matrix: seq<seq<char>>, rows: nat, cols: nat, answer: string, p: Progress,
                    row: int, col: int)
    requires IsGrid(matrix, rows, cols)
    ensures var (q, res) := TapStep(matrix, rows, cols, answer, p, row, col);
            res == Rejected <==>
              !(0 <= row < rows && 0 <= col < cols) ||
              (IndexOf(p.selected, row, col) < 0 && |p.selected| >= MaxSelected)
    ensures var (q, res) := TapStep(matrix, rows, cols, answer, p, row, col);
            res == Rejected ==> q == p
  {
  }

  /** Tapping a selected cell takes exactly that cell out of the selection and keeps
      the others, in order; taps, errors and score stay as they were. */
  lemma TapDeselects(matrix: seq<seq<char>>, rows: nat, cols: nat, answer: string, p: Progress,
                     row: int, col: int)
    requires IsGrid(matrix, rows, cols) && SelectionValid(matrix, rows, cols, p)
    requires 0 <= row < rows && 0 <= col < cols && IndexOf(p.selected, row, col) >= 0
    ensures var (q, res) := TapStep(matrix, rows, cols, answer, p, row, col);
            res == Deselected &&
            q.attempts == p.attempts && q.wrongCount == p.wrongCount &&
            q.isComplete == p.isComplete && q.score == p.score &&
            (forall e :: e in q.selected <==> e in p.selected && !(e.row == row && e.col == col))
  {
    RemoveAtMembers(p.selected, IndexOf(p.selected, row, col), row, col);
  }

  /** Removing the entry for a cell, in a selection that holds each cell once,
      removes exactly the entries for that cell. */
  lemma RemoveAtMembers(sel: seq<Selected>, k: nat, row: int, col: int)
    requires k < |sel| && sel[k].row == row && sel[k].col == col
    requires forall i, j :: 0 <= i < j < |sel| ==> !(sel[i].row == sel[j].row && sel[i].col == sel[j].col)
    ensures forall e :: e in RemoveAt(sel, k) <==> e in sel && !(e.row == row && e.col == col)
  {
    var r := RemoveAt(sel, k);
    forall e
      ensures e in r <==> e in sel && !(e.row == row && e.col == col)
    {
      if e in r {
        var j :| 0 <= j < |r| && r[j] == e;
        var j' := if j < k then j else j + 1;
        assert sel[j'] == e;
      }
      if e in sel && !(e.row == row && e.col == col) {
        var j :| 0 <= j < |sel| && sel[j] == e;
        assert j != k;
        assert r[if j < k then j else j - 1] == e;
      }
    }
  }

  /** Appending a cell counts one more tap; the board is complete exactly when the
      selected glyphs spell the answer; one error is counted exactly when the tap
      filled the selection with a wrong word. */
  lemma TapAppends(matrix: seq<seq<char>>, rows: nat, cols: nat, answer: string, p: Progress,
                   row: int, col: int)
    requires IsGrid(matrix, rows, cols) && SelectionValid(matrix, rows, cols, p)
    requires 0 <= row < rows && 0 <= col < cols && IndexOf(p.selected, row, col) < 0
    requires |p.selected| < MaxSelected
    ensures var (q, res) := TapStep(matrix, rows, cols, answer, p, row, col);
            && q.selected == p.selected + [Selected(row, col, matrix[row][col])]
            && q.attempts == p.attempts + 1
            && (q.isComplete <==> Spelled(q.selected) == answer)
            && (q.wrongCount == p.wrongCount + 1 <==> |q.selected| == MaxSelected && Spelled(q.selected) != answer)
            && (q.wrongCount == p.wrongCount || q.wrongCount == p.wrongCount + 1)
            && res == Appended(q.isComplete, |q.selected| == MaxSelected, q.isComplete)
            && (q.isComplete ==> 10 <= q.score <= 100)
  {
    var q := TapStep(matrix, rows, cols, answer, p, row, col).0;
    if q.isComplete {
      assert |answer| == |q.selected| <= q.attempts;
    }
  }

  /** The word-search board and the player's progress on it. */
  class WordFindLogic {
    /** The filler glyphs this board draws from (always `FillerPool`). */
    const fillerPool: string
    var answer: string
    var difficulty: string
    var cols: nat
    var rows: nat
    var cellSize: nat
    var matrix: seq<seq<char>>
    var cells: seq<Cell<char>>
    var selected: seq<Selected>
    var isComplete: bool
    var score: int
    var attempts: nat
    var wrongCount: nat

    /** The board is a `rows` by `cols` matrix laid out as `cells`, and the
        selection is valid on it. */
    ghost predicate Valid()
      reads this
    {
      && 0 < cols && 0 < rows
      && IsGrid(matrix, rows, cols)
      && cells == Layout(matrix, rows, cellSize, CellGap)
      && SelectionValid(matrix, rows, cols, State())
    }

    /** The fields taps change. */
    function State(): Progress
      reads this
    {
      Progress(selected, attempts, wrongCount, isComplete, score)
    }

    /** `new WordFindLogic({answer, difficulty})`, with an empty `answer` or
        `difficulty` standing for an absent one. */
    constructor (answer: string, difficulty: string, picks: seq<nat>, swaps: seq<nat>)
      requires |answer| <= ConfigFor(DifficultyOrDefault(difficulty)).cols * ConfigFor(DifficultyOrDefault(difficulty)).rows
      requires |picks| == ConfigFor(DifficultyOrDefault(difficulty)).cols * ConfigFor(DifficultyOrDefault(difficulty)).rows - |answer|
      requires ValidPicks(Pool(answer), picks)
      requires Shuffle.IsSwapSequence(swaps, ConfigFor(DifficultyOrDefault(difficulty)).cols * ConfigFor(DifficultyOrDefault(difficulty)).rows)
      ensures Valid()
      ensures this.answer == answer && this.difficulty == DifficultyOrDefault(difficulty)
      ensures Config(cols, rows, cellSize) == ConfigFor(DifficultyOrDefault(difficulty))
      ensures selected == [] && !isComplete && score == 0 && attempts == 0 && wrongCount == 0
      ensures Flatten(matrix) == Shuffle.FisherYates(answer + Fillers(Pool(answer), picks), swaps, rows * cols - 1)
      ensures multiset(Flatten(matrix)) == multiset(answer) + multiset(Fillers(Pool(answer), picks))
      ensures fillerPool == FillerPool
    {
      fillerPool := FillerPool;
      this.answer := answer;
      this.difficulty := DifficultyOrDefault(difficulty);
      var cfg := ConfigFor(DifficultyOrDefault(difficulty));
      cols := cfg.cols;
      rows := cfg.rows;
      cellSize := cfg.cellSize;
      matrix := [];
      selected := [];
      cells := [];
      isComplete := false;
      score := 0;
      attempts := 0;
      wrongCount := 0;
      new;
      InitMatrix(picks, swaps);
    }

    /** `initMatrix`: pad the answer with fillers, shuffle, and cut the result into
        rows, laying out one cell per glyph. */
    method InitMatrix(picks: seq<nat>, swaps: seq<nat>)
      requires 0 < cols && 0 < rows && |answer| <= cols * rows
      requires |picks| == cols * rows - |answer| && ValidPicks(Without(fillerPool, answer), picks)
      requires Shuffle.IsSwapSequence(swaps, cols * rows)
      requires selected == [] && attempts >= 0
      modifies this
      ensures Valid()
      ensures answer == old(answer) && difficulty == old(difficulty)
      ensures cols == old(cols) && rows == old(rows) && cellSize == old(cellSize)
      ensures selected == old(selected) && isComplete == old(isComplete) && score == old(score)
      ensures attempts == old(attempts) && wrongCount == old(wrongCount)
      ensures Flatten(matrix) == Shuffle.FisherYates(answer + Fillers(Without(fillerPool, answer), picks), swaps, rows * cols - 1)
      ensures multiset(Flatten(matrix)) == multiset(answer) + multiset(Fillers(Without(fillerPool, answer), picks))
    {
      var m, c := BuildBoard(answer, Without(fillerPool, answer), picks, swaps, rows, cols, cellSize);
      SetBoard(m, c);
    }

    /** Store a board laid out for this object's size, with nothing selected. */
    method SetBoard(m: seq<seq<char>>, c: seq<Cell<char>>)
      requires 0 < cols && 0 < rows && IsGrid(m, rows, cols) && c == Layout(m, rows, cellSize, CellGap)
      requires selected == [] && attempts >= 0
      modifies this
      ensures Valid() && matrix == m && cells == c
      ensures answer == old(answer) && difficulty == old(difficulty)
      ensures cols == old(cols) && rows == old(rows) && cellSize == old(cellSize)
      ensures selected == old(selected) && isComplete == old(isComplete) && score == old(score)
      ensures attempts == old(attempts) && wrongCount == old(wrongCount)
    {
      matrix, cells := m, c;
    }

    /** `tapCell(row, col)`. */
    method TapCell(row: int, col: int) returns (res: TapResult)
      requires Valid()
      modifies this
      ensures Valid()
      ensures answer == old(answer) && difficulty == old(difficulty) && matrix == old(matrix) && cells == old(cells)
      ensures cols == old(cols) && rows == old(rows) && cellSize == old(cellSize)
      ensures (State(), res) == TapStep(matrix, rows, cols, answer, old(State()), row, col)
    {
      var next;
      next, res := TapOnBoard(matrix, rows, cols, cellSize, cells, answer, State(), row, col);
      TapKeepsSelectionValid(matrix, rows, cols, answer, State(), row, col);
      SetProgress(next);
    }

    /** Store the progress fields of `p`, which is valid on this board. */
    method SetProgress(p: Progress)
      requires Valid() && SelectionValid(matrix, rows, cols, p)
      modifies this
      ensures Valid() && State() == p
      ensures answer == old(answer) && difficulty == old(difficulty) && matrix == old(matrix) && cells == old(cells)
      ensures cols == old(cols) && rows == old(rows) && cellSize == old(cellSize)
    {
      selected, attempts, wrongCount, isComplete, score :=
        p.selected, p.attempts, p.wrongCount, p.isComplete, p.score;
    }

    /** The page's reset after a full wrong selection (`logic.selected = []`). */
    method ClearSelection()
      requires Valid()
      modifies this
      ensures Valid()
      ensures selected == []
      ensures answer == old(answer) && difficulty == old(difficulty) && matrix == old(matrix) && cells == old(cells)
      ensures cols == old(cols) && rows == old(rows) && cellSize == old(cellSize)
      ensures attempts == old(attempts) && wrongCount == old(wrongCount)
      ensures isComplete == old(isComplete) && score == old(score)
    {
      selected := [];
    }

    /** `getCellByPoint(x, y)` in board coordinates. */
    method GetCellByPoint(px: real, py: real) returns (hit: Option<(int, int)>)
      requires Valid()
      ensures hit.Some? ==> 0 <= hit.value.0 < rows && 0 <= hit.value.1 < cols
      ensures hit.Some? ==> forall r, c :: InCell(px, py, r, c, cellSize, CellGap) <==> r == hit.value.0 && c == hit.value.1
      ensures hit.None? <==> forall r, c :: 0 <= r < rows && 0 <= c < cols ==> !InCell(px, py, r, c, cellSize, CellGap)
    {
      hit := CellByPoint(cells, matrix, rows, cols, cellSize, CellGap, px, py);
    }

    /** `calcFinalScore(remainingSec, totalSec)` for this board's wrong count. */
    method CalcFinalScore(remainingSec: real, totalSec: real) returns (s: int)
      ensures s == FinalScore(wrongCount, remainingSec, totalSec)
      ensures 10 <= s <= 100
    {
      s := FinalScore(wrongCount, remainingSec, totalSec);
    }
  }

  // ---------------------------------------------------------------------------
  // The loops of `initMatrix` and `tapCell`
  // ---------------------------------------------------------------------------

  /** The body of `initMatrix`: pad, shuffle and cut. */
  method BuildBoard(answer: string, pool: string, picks: seq<nat>, swaps: seq<nat>, rows: nat, cols: nat, cellSize: nat)
    returns (matrix: seq<seq<char>>, cells: seq<Cell<char>>)
    requires |answer| <= cols * rows && |picks| == cols * rows - |answer| && ValidPicks(pool, picks)
    requires Shuffle.IsSwapSequence(swaps, cols * rows)
    ensures IsGrid(matrix, rows, cols) && cells == Layout(matrix, rows, cellSize, CellGap)
    ensures Flatten(matrix) == Shuffle.FisherYates(answer + Fillers(pool, picks), swaps, rows * cols - 1)
    ensures multiset(Flatten(matrix)) == multiset(answer) + multiset(Fillers(pool, picks))
  {
    var total := cols * rows;
    assert total == rows * cols;
    var flat := PadWithFillers(answer, pool, picks, total);
    matrix, cells := ShuffleAndCut(flat, swaps, rows, cols, cellSize);
  }

  /** The shuffle and the build loops of `initMatrix`: the padded glyphs are
      shuffled in place and cut into rows. */
  method ShuffleAndCut(flat: string, swaps: seq<nat>, rows: nat, cols: nat, cellSize: nat)
    returns (matrix: seq<seq<char>>, cells: seq<Cell<char>>)
    requires |flat| == rows * cols && Shuffle.IsSwapSequence(swaps, |flat|)
    ensures IsGrid(matrix, rows, cols)
    ensures cells == Layout(matrix, rows, cellSize, CellGap)
    ensures Flatten(matrix) == Shuffle.FisherYates(flat, swaps, |flat| - 1)
    ensures multiset(Flatten(matrix)) == multiset(flat)
  {
    var a := new char[|flat|](i requires 0 <= i < |flat| => flat[i]);
    assert a[..] == flat;
    Shuffle.ShuffleInPlace(a, swaps);
    Shuffle.FisherYatesPermutes(flat, swaps, |flat| - 1);
    matrix, cells := CutIntoRows(a[..], rows, cols, cellSize);
  }

  /** The fill loop: push pool entries until the board is full. */
  method PadWithFillers(answer: string, pool: string, picks: seq<nat>, total: nat) returns (flat: string)
    requires |answer| <= total && |picks| == total - |answer| && ValidPicks(pool, picks)
    ensures flat == answer + Fillers(pool, picks)
    ensures |flat| == total
  {
    flat := answer;
    var k := 0;
    while |flat| < total
      invariant k == |flat| - |answer| && k <= |picks|
      invariant flat == answer + Fillers(pool, picks[..k])
    {
      assert picks[..k + 1][..k] == picks[..k];
      flat := flat + [pool[picks[k]]];
      k := k + 1;
    }
    assert picks[..k] == picks;
  }

  /** The nested build loops: row `r` of the matrix is `flat[r*cols .. (r+1)*cols]`,
      and one cell record is pushed per glyph. */
  method CutIntoRows(flat: string, rows: nat, cols: nat, cellSize: nat)
    returns (matrix: seq<seq<char>>, cells: seq<Cell<char>>)
    requires |flat| == rows * cols
    ensures IsGrid(matrix, rows, cols)
    ensures Flatten(matrix) == flat
    ensures cells == Layout(matrix, rows, cellSize, CellGap)
  {
    matrix := [];
    cells := [];
    var r := 0;
    while r < rows
      invariant 0 <= r <= rows && |matrix| == r
      invariant IsGrid(matrix, r, cols)
      invariant r * cols <= |flat| && Flatten(matrix) == flat[..r * cols]
      invariant cells == Layout(matrix, r, cellSize, CellGap)
    {
      RowSlice(flat, r, rows, cols);
      var row, rowCells := BuildRow(flat, r * cols, r, cols, cellSize);
      LayoutAppendRow(matrix, row, cellSize, CellGap);
      FlattenAppend(matrix, row);
      matrix := matrix + [row];
      cells := cells + rowCells;
      r := r + 1;
    }
    assert flat[..rows * cols] == flat;
  }

  /** The inner build loop: the glyphs of one row and their cells. */
  method BuildRow(flat: string, start: nat, r: nat, cols: nat, cellSize: nat) returns (row: string, rowCells: seq<Cell<char>>)
    requires start + cols <= |flat|
    ensures row == flat[start .. start + cols]
    ensures rowCells == RowCells(row, r, cols, cellSize, CellGap)
  {
    row := [];
    rowCells := [];
    var c := 0;
    while c < cols
      invariant 0 <= c <= cols
      invariant row == flat[start .. start + c]
      invariant rowCells == RowCells(row, r, c, cellSize, CellGap)
    {
      var ch := flat[start + c];
      RowCellsPrefix(row, row + [ch], r, c, cellSize, CellGap);
      row := row + [ch];
      rowCells := rowCells + [Cell(r, c, c * (cellSize + CellGap), r * (cellSize + CellGap), ch)];
      c := c + 1;
    }
  }

  /** The body of `tapCell` on the board's cells and the current progress. */
  method TapOnBoard(matrix: seq<seq<char>>, rows: nat, cols: nat, cellSize: nat, cells: seq<Cell<char>>,
                    answer: string, p: Progress, row: int, col: int) returns (q: Progress, res: TapResult)
    requires IsGrid(matrix, rows, cols) && cells == Layout(matrix, rows, cellSize, CellGap)
    ensures (q, res) == TapStep(matrix, rows, cols, answer, p, row, col)
  {
    var found := FindPosition(cells, row, col);
    if found < 0 {
      if 0 <= row < rows && 0 <= col < cols {
        LayoutAt(matrix, rows, rows, cols, row, col, cellSize, CellGap);
      }
      return p, Rejected;
    }
    LayoutPlaced(matrix, rows, rows, cols, found, cellSize, CellGap);
    var cell := cells[found];
    var existIdx := FindSelected(p.selected, row, col);
    if existIdx >= 0 {
      return p.(selected := p.selected[..existIdx] + p.selected[existIdx + 1..]), Deselected;
    }
    if |p.selected| >= MaxSelected {
      return p, Rejected;
    }
    var selected := p.selected + [Selected(cell.row, cell.col, cell.glyph)];
    var attempts := p.attempts + 1;
    var str := SpellSelection(selected);
    var isComplete := str == answer;
    var isFull := |selected| == MaxSelected;
    var isCorrect := isComplete;
    var wrongCount := p.wrongCount;
    if isFull && !isCorrect {
      wrongCount := wrongCount + 1;
    }
    var score := p.score;
    if isComplete {
      score := Max(10, 100 - (attempts - |answer|) * 10);
    }
    return Progress(selected, attempts, wrongCount, isComplete, score), Appended(isComplete, isFull, isCorrect);
  }

  /** The first loop of `tapCell`: the index of the cell record at `(row, col)`, or -1. */
  method FindPosition(cells: seq<Cell<char>>, row: int, col: int) returns (found: int)
    ensures -1 <= found < |cells|
    ensures found >= 0 ==> cells[found].row == row && cells[found].col == col
    ensures found < 0 ==> forall j :: 0 <= j < |cells| ==> !(cells[j].row == row && cells[j].col == col)
  {
    var i := 0;
    while i < |cells|
      invariant 0 <= i <= |cells|
      invariant forall j :: 0 <= j < i ==> !(cells[j].row == row && cells[j].col == col)
    {
      if cells[i].row == row && cells[i].col == col {
        return i;
      }
      i := i + 1;
    }
    return -1;
  }

  /** The second loop of `tapCell`: where the cell already is in the selection. */
  method FindSelected(selected: seq<Selected>, row: int, col: int) returns (existIdx: int)
    ensures existIdx == IndexOf(selected, row, col)
  {
    existIdx := -1;
    var m := 0;
    while m < |selected|
      invariant 0 <= m <= |selected|
      invariant forall j :: 0 <= j < m ==> !(selected[j].row == row && selected[j].col == col)
    {
      if selected[m].row == row && selected[m].col == col {
        existIdx := m;
        break;
      }
      m := m + 1;
    }
  }

  /** The third loop of `tapCell`: the selected glyphs concatenated. */
  method SpellSelection(selected: seq<Selected>) returns (str: string)
    ensures str == Spelled(selected)
  {
    str := "";
    var n := 0;
    while n < |selected|
      invariant 0 <= n <= |selected|
      invariant str == Spelled(selected[..n])
    {
      assert selected[..n + 1][..n] == selected[..n];
      str := str + [selected[n].glyph];
      n := n + 1;
    }
    assert selected[..n] == selected;
  }

  // ---------------------------------------------------------------------------
  // Scoring
  // ---------------------------------------------------------------------------

  /** Speed-oriented final score: 100, plus 1.2 points per second left, less one
      point per second used and 8 per wrong full selection, clamped to [10, 100]. */
  function FinalScore(wrongCount: nat, remainingSec: real, totalSec: real): (s: int)
    ensures 10 <= s <= 100
  {
    var elapsed := totalSec - remainingSec;
    Clamp(10, 100, 100 + Floor(remainingSec * 1.2) - Floor(elapsed * 1.0) - wrongCount * 8)
  }

  /** `getScoreBreakdown`: the parts of the final score. */
  datatype Breakdown = Breakdown(
    totalScore: int,
    baseScore: int,
    timeBonus: int,
    timePenalty: int,
    errorPenalty: int,
    elapsedSec: real,
    remainingSec: real,
    wrongCount: nat)

  function ScoreBreakdown(wrongCount: nat, remainingSec: real, totalSec: real): (b: Breakdown)
    ensures b.totalScore == FinalScore(wrongCount, remainingSec, totalSec)
    ensures b.totalScore == Clamp(10, 100, b.baseScore + b.timeBonus - b.timePenalty - b.errorPenalty)
    ensures b.elapsedSec + b.remainingSec == totalSec && b.errorPenalty == 8 * b.wrongCount
    ensures b.baseScore == 100 && b.wrongCount == wrongCount && b.remainingSec == remainingSec
    ensures b.timeBonus as real <= remainingSec * 1.2 < b.timeBonus as real + 1.0
    ensures b.timePenalty as real <= b.elapsedSec < b.timePenalty as real + 1.0
  {
    var elapsed := totalSec - remainingSec;
    Breakdown(FinalScore(wrongCount, remainingSec, totalSec), 100, Floor(remainingSec * 1.2),
              Floor(elapsed * 1.0), wrongCount * 8, elapsed, remainingSec, wrongCount)
  }

  /** More wrong selections never raise the score, and more time left at the same
      budget never lowers it; a flawless instant solve scores 100. */
  lemma FinalScoreMonotone(w1: nat, w2: nat, r1: real, r2: real, total: real)
    requires w1 <= w2 && r1 <= r2
    ensures FinalScore(w2, r1, total) <= FinalScore(w1, r2, total)
    ensures total >= 0.0 ==> FinalScore(0, total, total) == 100
  {
    FloorMonotone(r1 * 1.2, r2 * 1.2);
    FloorMonotone((total - r2) * 1.0, (total - r1) * 1.0);
  }
}

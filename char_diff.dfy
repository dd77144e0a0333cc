/** Spot the different glyph: a matrix filled with a base glyph and one variant
    glyph; a tap on the variant solves the puzzle, and each distinct wrong cell
    costs points once. Glyphs are strings, as the server sends them. */
module CharDiff {
  import opened Common
  import opened Grid

  /** Space between neighbouring cells. */
  const CellGap: nat := 4

  datatype Config = Config(cols: nat, rows: nat, cellSize: nat)

  /** The board size for each difficulty. */
  const DifficultyConfig: map<string, Config> := map[
    "easy" := Config(3, 3, 80),
    "normal" := Config(4, 4, 68),
    "hard" := Config(5, 5, 58),
    "hell" := Config(5, 8, 50)
  ]

  /** `options.difficulty || 'normal'`: an empty difficulty stands for an absent one. */
  function DifficultyOrDefault(difficulty: string): (d: string)
    ensures difficulty != "" ==> d == difficulty
    ensures difficulty == "" ==> d == "normal"
  {
    if difficulty == "" then "normal" else difficulty
  }

  /** `DIFFICULTY_CONFIG[difficulty] || DIFFICULTY_CONFIG.normal`. */
  function ConfigFor(difficulty: string): (cfg: Config)
    ensures difficulty in DifficultyConfig ==> cfg == DifficultyConfig[difficulty]
    ensures difficulty !in DifficultyConfig ==> cfg == DifficultyConfig["normal"]
    ensures 0 < cfg.cols && 0 < cfg.rows && 0 < cfg.cellSize
  {
    if difficulty in DifficultyConfig then DifficultyConfig[difficulty] else DifficultyConfig["normal"]
  }

  /** An unknown difficulty plays the normal 4x4 board; 'hell' is the 5x8 board. */
  lemma ConfigTable(difficulty: string)
    ensures difficulty !in {"easy", "normal", "hard", "hell"} ==> ConfigFor(difficulty) == Config(4, 4, 68)
    ensures ConfigFor("hell") == Config(5, 8, 50)
    ensures ConfigFor(DifficultyOrDefault("")) == Config(4, 4, 68)
  {
  }

  // ---------------------------------------------------------------------------
  // The generated matrix
  // ---------------------------------------------------------------------------

  /** The glyph a generated board shows at `(r, c)`. */
  function GlyphAt(base: string, diff: string, diffAt: (int, int), r: int, c: int): string
  {
    if (r, c) == diffAt then diff else base
  }

  /** `m` is the generated board: `base` everywhere except `diff` at `diffAt`. */
  predicate IsGenerated(m: seq<seq<string>>, rows: nat, cols: nat, base: string, diff: string, diffAt: (int, int))
  {
    && IsGrid(m, rows, cols)
    && forall r, c :: 0 <= r < rows && 0 <= c < cols ==> m[r][c] == GlyphAt(base, diff, diffAt, r, c)
  }

  /** `_generateMatrix`, with the random cell `(dr, dc)` supplied by the caller. */
  method GenerateMatrix(rows: nat, cols: nat, base: string, diff: string, dr: nat, dc: nat)
    returns (m: seq<seq<string>>)
    requires dr < rows && dc < cols
    ensures IsGenerated(m, rows, cols, base, diff, (dr, dc))
    ensures m[dr][dc] == diff
  {
    var arr: seq<seq<string>> := [];
    var r := 0;
    while r < rows
      invariant 0 <= r <= rows && |arr| == r
      invariant forall i :: 0 <= i < r ==> arr[i] == seq(cols, _ => base)
    {
      var row: seq<string> := [];
      var c := 0;
      while c < cols
        invariant 0 <= c <= cols && row == seq(c, _ => base)
      {
        row := row + [base];
        c := c + 1;
      }
      arr := arr + [row];
      r := r + 1;
    }
    m := arr[dr := arr[dr][dc := diff]];
  }

  /** `_buildCells`: one cell record per matrix entry, row by row. */
  method BuildCells(matrix: seq<seq<string>>, rows: nat, cols: nat, cellSize: nat)
    returns (cells: seq<Cell<string>>)
    requires IsGrid(matrix, rows, cols)
    ensures cells == Layout(matrix, rows, cellSize, CellGap)
  {
    cells := [];
    var r := 0;
    while r < rows
      invariant 0 <= r <= rows
      invariant cells == Layout(matrix, r, cellSize, CellGap)
    {
      var c := 0;
      while c < cols
        invariant 0 <= c <= cols
        invariant cells == Layout(matrix, r, cellSize, CellGap) + RowCells(matrix[r], r, c, cellSize, CellGap)
      {
        cells := cells + [Cell(r, c, c * (cellSize + CellGap), r * (cellSize + CellGap), matrix[r][c])];
        c := c + 1;
      }
      r := r + 1;
    }
  }

  // ---------------------------------------------------------------------------
  // Wrong-tap keys
  // ---------------------------------------------------------------------------

  /** The key `row + ',' + col` under which a wrong cell is remembered. */
  function Key(row: int, col: int): string
  {
    IntToString(row) + "," + IntToString(col)
  }

  /** In `a + "," + b` the comma sits right after `a`. */
  lemma CommaAt(a: string, b: string)
    ensures (a + "," + b)[|a|] == ','
    ensures forall i :: 0 <= i < |a| ==> (a + "," + b)[i] == a[i]
  {
  }

  /** Distinct cells have distinct keys, so the key list counts cells. */
  lemma KeyInjective(r1: int, c1: int, r2: int, c2: int)
    requires Key(r1, c1) == Key(r2, c2)
    ensures r1 == r2 && c1 == c2
  {
    var a1, a2 := IntToString(r1), IntToString(r2);
    var k1, k2 := Key(r1, c1), Key(r2, c2);
    if |a1| < |a2| {
      CommaAt(a1, IntToString(c1));
      assert false;
    } else if |a2| < |a1| {
      CommaAt(a2, IntToString(c2));
      assert false;
    } else {
      assert a1 == k1[..|a1|] && a2 == k2[..|a2|];
      IntToStringInjective(r1, r2);
      assert IntToString(c1) == k1[|a1| + 1..] && IntToString(c2) == k2[|a2| + 1..];
      IntToStringInjective(c1, c2);
    }
  }

  // ---------------------------------------------------------------------------
  // Taps
  // ---------------------------------------------------------------------------

  /** The state a tap changes: whether the variant was found, and the wrong cells. */
  datatype Progress = Progress(revealed: bool, tappedWrong: seq<string>)

  /** What `tap` returns: `{hit, wrongCount, isRepeated}`. */
  datatype TapOutcome = TapOutcome(hit: bool, wrongCount: nat, isRepeated: bool)

  /** The wrong-cell list holds each key once and never the variant's key. */
  predicate WrongListValid(diffAt: (int, int), p: Progress)
  {
    NoDup(p.tappedWrong) && Key(diffAt.0, diffAt.1) !in p.tappedWrong
  }

  /** `tap(row, col)`: a tap on `diffAt` reveals it; any other tap records its
      key unless it is already recorded. */
  function TapStep(diffAt: (int, int), p: Progress, row: int, col: int): (Progress, TapOutcome)
  {
    var hit := diffAt.0 == row && diffAt.1 == col;
    if hit then
      (p.(revealed := true), TapOutcome(true, |p.tappedWrong|, false))
    else
      var key := Key(row, col);
      var isRepeated := key in p.tappedWrong;
      var wrong := if isRepeated then p.tappedWrong else p.tappedWrong + [key];
      (p.(tappedWrong := wrong), TapOutcome(false, |wrong|, isRepeated))
  }

  /** A tap on the variant solves the puzzle whatever the earlier wrong taps,
      and leaves the wrong cells alone. */
  lemma TapHit(diffAt: (int, int), p: Progress, row: int, col: int)
    requires (row, col) == diffAt
    ensures TapStep(diffAt, p, row, col).0 == Progress(true, p.tappedWrong)
    ensures TapStep(diffAt, p, row, col).1 == TapOutcome(true, |p.tappedWrong|, false)
  {
  }

  /** A miss records the cell's key only when it is new, reports whether it was
      a repeat, and never reveals the variant. */
  lemma TapMiss(diffAt: (int, int), p: Progress, row: int, col: int)
    requires (row, col) != diffAt
    ensures TapStep(diffAt, p, row, col).0.revealed == p.revealed
    ensures TapStep(diffAt, p, row, col).1.isRepeated <==> Key(row, col) in p.tappedWrong
    ensures Key(row, col) in p.tappedWrong ==> TapStep(diffAt, p, row, col).0.tappedWrong == p.tappedWrong
    ensures Key(row, col) !in p.tappedWrong ==> TapStep(diffAt, p, row, col).0.tappedWrong == p.tappedWrong + [Key(row, col)]
    ensures !TapStep(diffAt, p, row, col).1.hit
    ensures TapStep(diffAt, p, row, col).1.wrongCount == |TapStep(diffAt, p, row, col).0.tappedWrong|
  {
  }

  /** Taps keep the wrong-cell list free of repeats and of the variant's key. */
  lemma TapKeepsWrongListValid(diffAt: (int, int), p: Progress, row: int, col: int)
    requires WrongListValid(diffAt, p)
    ensures WrongListValid(diffAt, TapStep(diffAt, p, row, col).0)
  {
    if (row, col) != diffAt && Key(row, col) !in p.tappedWrong {
      if Key(row, col) == Key(diffAt.0, diffAt.1) {
        KeyInjective(row, col, diffAt.0, diffAt.1);
      }
    }
  }

  /** A run of taps from the same board. */
  function RunTaps(diffAt: (int, int), p: Progress, taps: seq<(int, int)>): Progress
    decreases |taps|
  {
    if taps == [] then p
    else RunTaps(diffAt, TapStep(diffAt, p, taps[0].0, taps[0].1).0, taps[1..])
  }

  /** The keys of the wrong taps among `taps`. */
  function MissedKeys(diffAt: (int, int), taps: seq<(int, int)>): set<string>
  {
    set k | 0 <= k < |taps| && taps[k] != diffAt :: Key(taps[k].0, taps[k].1)
  }

  /** The missed keys of a run are those of its first tap and of the rest. */
  lemma MissedKeysCons(diffAt: (int, int), taps: seq<(int, int)>)
    requires taps != []
    ensures MissedKeys(diffAt, taps)
            == (if taps[0] != diffAt then {Key(taps[0].0, taps[0].1)} else {}) + MissedKeys(diffAt, taps[1..])
  {
    forall x | x in MissedKeys(diffAt, taps)
      ensures x in (if taps[0] != diffAt then {Key(taps[0].0, taps[0].1)} else {}) + MissedKeys(diffAt, taps[1..])
    {
      var k :| 0 <= k < |taps| && taps[k] != diffAt && x == Key(taps[k].0, taps[k].1);
      if k > 0 {
        assert taps[1..][k - 1] == taps[k];
      }
    }
    forall x | x in MissedKeys(diffAt, taps[1..])
      ensures x in MissedKeys(diffAt, taps)
    {
      var k :| 0 <= k < |taps[1..]| && taps[1..][k] != diffAt && x == Key(taps[1..][k].0, taps[1..][k].1);
      assert taps[k + 1] == taps[1..][k];
    }
  }

  /** One tap adds its key to the set of wrong keys exactly when it misses. */
  lemma TapElements(diffAt: (int, int), p: Progress, row: int, col: int)
    ensures Elements(TapStep(diffAt, p, row, col).0.tappedWrong)
            == Elements(p.tappedWrong) + (if (row, col) != diffAt then {Key(row, col)} else {})
  {
  }

  /** After a run of taps the wrong-cell list holds exactly the keys recorded
      before and those of the wrong cells tapped, each once. */
  lemma {:induction false} RunTapsWrongKeys(diffAt: (int, int), p: Progress, taps: seq<(int, int)>)
    requires WrongListValid(diffAt, p)
    ensures WrongListValid(diffAt, RunTaps(diffAt, p, taps))
    ensures Elements(RunTaps(diffAt, p, taps).tappedWrong) == Elements(p.tappedWrong) + MissedKeys(diffAt, taps)
    decreases |taps|
  {
    if taps != [] {
      var p1 := TapStep(diffAt, p, taps[0].0, taps[0].1).0;
      TapKeepsWrongListValid(diffAt, p, taps[0].0, taps[0].1);
      TapElements(diffAt, p, taps[0].0, taps[0].1);
      MissedKeysCons(diffAt, taps);
      RunTapsWrongKeys(diffAt, p1, taps[1..]);
      assert RunTaps(diffAt, p, taps) == RunTaps(diffAt, p1, taps[1..]);
    } else {
      assert MissedKeys(diffAt, taps) == {};
    }
  }

  /** From a fresh board, the reported wrong count after a run of taps is the
      number of distinct wrong cells tapped. */
  lemma RunTapsCountsDistinctMisses(diffAt: (int, int), taps: seq<(int, int)>)
    ensures |RunTaps(diffAt, Progress(false, []), taps).tappedWrong| == |MissedKeys(diffAt, taps)|
  {
    var p := Progress(false, []);
    RunTapsWrongKeys(diffAt, p, taps);
    assert Elements(p.tappedWrong) == {};
    NoDupCardinality(RunTaps(diffAt, p, taps).tappedWrong);
  }

  // ---------------------------------------------------------------------------
  // Scoring
  // ---------------------------------------------------------------------------

  /** `calcScore(elapsedSec)`: 100 less 1.5 points per second used and 12 per
      distinct wrong cell, never below 10 (there is no upper clamp). */
  function CalcScore(wrongCount: nat, elapsedSec: real): int
  {
    Max(10, 100 - Floor(elapsedSec * 1.5) - wrongCount * 12)
  }

  /** The score is at least 10, and at most 100 unless time ran backwards;
      more time or more wrong cells never raise it. */
  lemma CalcScoreBounds(w1: nat, w2: nat, e1: real, e2: real)
    requires w1 <= w2 && e1 <= e2
    ensures 10 <= CalcScore(w2, e2) <= CalcScore(w1, e1)
    ensures e1 >= 0.0 ==> CalcScore(w1, e1) <= 100
    ensures CalcScore(0, 0.0) == 100
  {
    FloorMonotone(e1 * 1.5, e2 * 1.5);
    if e1 >= 0.0 {
      FloorMonotone(0.0, e1 * 1.5);
    }
  }

  /** `calcFinalScore(remainingSec, totalSec)`: the score for the time used. */
  function FinalScore(wrongCount: nat, remainingSec: real, totalSec: real): (s: int)
    ensures s == CalcScore(wrongCount, totalSec - remainingSec)
    ensures s >= 10
    ensures remainingSec <= totalSec ==> s <= 100
  {
    CalcScoreBounds(wrongCount, wrongCount, totalSec - remainingSec, totalSec - remainingSec);
    CalcScore(wrongCount, totalSec - remainingSec)
  }

  datatype Breakdown = Breakdown(
    totalScore: int, baseScore: int, timePenalty: int, errorPenalty: int,
    elapsedSec: real, wrongCount: nat)

  /** `getScoreBreakdown(remainingSec, totalSec)`. */
  function ScoreBreakdown(wrongCount: nat, remainingSec: real, totalSec: real): (b: Breakdown)
    ensures b.totalScore == FinalScore(wrongCount, remainingSec, totalSec)
    ensures b.totalScore == Max(10, b.baseScore - b.timePenalty - b.errorPenalty)
    ensures b.baseScore == 100 && b.errorPenalty == 12 * wrongCount && b.wrongCount == wrongCount
    ensures b.elapsedSec == totalSec - remainingSec
    ensures b.timePenalty as real <= b.elapsedSec * 1.5 < b.timePenalty as real + 1.0
  {
    var elapsed := totalSec - remainingSec;
    Breakdown(CalcScore(wrongCount, elapsed), 100, Floor(elapsed * 1.5), wrongCount * 12, elapsed, wrongCount)
  }

  // ---------------------------------------------------------------------------
  // The puzzle object
  // ---------------------------------------------------------------------------

  /** The board of one spot-the-difference puzzle and the player's progress. */
  class CharDiffLogic {
    var difficulty: string
    var cols: nat
    var rows: nat
    var cellSize: nat
    var base: string
    var diff: string
    var matrix: seq<seq<string>>
    var diffAt: Option<(int, int)>
    var cells: seq<Cell<string>>
    var revealed: bool
    var tappedWrong: seq<string>
    var score: int

    /** The board is a `rows` by `cols` matrix laid out as `cells`, and the
        wrong-cell list is valid for the variant's position. */
    ghost predicate Valid()
      reads this
    {
      && 0 < cols && 0 < rows
      && IsGrid(matrix, rows, cols)
      && cells == Layout(matrix, rows, cellSize, CellGap)
      && (diffAt.Some? ==> WrongListValid(diffAt.value, State()))
    }

    /** The fields taps change. */
    function State(): Progress
      reads this
    {
      Progress(revealed, tappedWrong)
    }

    /** `new CharDiffLogic(options)` once `base` and `diff` are known to be
        present. A supplied matrix must have the board's shape; without one the
        board is generated with the variant at `(dr, dc)`. */
    constructor (difficulty: string, base: string, diff: string,
                 matrix: Option<seq<seq<string>>>, diffAt: Option<(int, int)>, dr: nat, dc: nat)
      requires base != "" && diff != ""
      requires matrix.Some? ==> IsGrid(matrix.value, ConfigFor(DifficultyOrDefault(difficulty)).rows,
                                       ConfigFor(DifficultyOrDefault(difficulty)).cols)
      requires matrix.None? ==> dr < ConfigFor(DifficultyOrDefault(difficulty)).rows
                                && dc < ConfigFor(DifficultyOrDefault(difficulty)).cols
      ensures Valid()
      ensures this.difficulty == DifficultyOrDefault(difficulty)
      ensures Config(cols, rows, cellSize) == ConfigFor(DifficultyOrDefault(difficulty))
      ensures this.base == base && this.diff == diff
      ensures matrix.Some? ==> this.matrix == matrix.value && this.diffAt == diffAt
      ensures matrix.None? ==> this.diffAt == Some((dr, dc)) && IsGenerated(this.matrix, rows, cols, base, diff, (dr, dc))
      ensures !revealed && tappedWrong == [] && score == 0
    {
      this.difficulty := DifficultyOrDefault(difficulty);
      var cfg := ConfigFor(DifficultyOrDefault(difficulty));
      cols := cfg.cols;
      rows := cfg.rows;
      cellSize := cfg.cellSize;
      this.base := base;
      this.diff := diff;
      revealed := false;
      tappedWrong := [];
      score := 0;
      var m;
      if matrix.None? {
        m := GenerateMatrix(cfg.rows, cfg.cols, base, diff, dr, dc);
        this.diffAt := Some((dr, dc));
      } else {
        m := matrix.value;
        this.diffAt := diffAt;
      }
      this.matrix := m;
      var cs := BuildCells(m, cfg.rows, cfg.cols, cfg.cellSize);
      cells := cs;
    }

    /** `tap(row, col)`; the variant's position must be known (the source
        dereferences it). */
    method Tap(row: int, col: int) returns (outcome: TapOutcome)
      requires Valid() && diffAt.Some?
      modifies this
      ensures Valid()
      ensures matrix == old(matrix) && cells == old(cells) && diffAt == old(diffAt)
      ensures cols == old(cols) && rows == old(rows) && cellSize == old(cellSize)
      ensures base == old(base) && diff == old(diff) && difficulty == old(difficulty) && score == old(score)
      ensures (State(), outcome) == TapStep(diffAt.value, old(State()), row, col)
    {
      TapKeepsWrongListValid(diffAt.value, State(), row, col);
      var hit := diffAt.value.0 == row && diffAt.value.1 == col;
      var key := Key(row, col);
      var isRepeated := false;
      if hit {
        revealed := true;
      } else {
        isRepeated := key in tappedWrong;
        if !isRepeated {
          tappedWrong := tappedWrong + [key];
        }
      }
      outcome := TapOutcome(hit, |tappedWrong|, isRepeated);
    }

    /** `getCellByPoint(x, y)` in board coordinates. */
    method GetCellByPoint(px: real, py: real) returns (hit: Option<(int, int)>)
      requires Valid()
      ensures hit.Some? ==> 0 <= hit.value.0 < rows && 0 <= hit.value.1 < cols
      ensures hit.Some? ==> forall r, c :: InCell(px, py, r, c, cellSize, CellGap) <==> r == hit.value.0 && c == hit.value.1
      ensures hit.None? <==> forall r, c :: 0 <= r < rows && 0 <= c < cols ==> !InCell(px, py, r, c, cellSize, CellGap)
    {
      hit := CellByPoint(cells, matrix, rows, cols, cellSize, CellGap, px, py);
    }

    /** `calcFinalScore(remainingSec, totalSec)` for this board's wrong cells. */
    method CalcFinalScore(remainingSec: real, totalSec: real) returns (s: int)
      ensures s == CalcScore(|tappedWrong|, totalSec - remainingSec)
      ensures s >= 10 && (remainingSec <= totalSec ==> s <= 100)
    {
      s := FinalScore(|tappedWrong|, remainingSec, totalSec);
    }
  }

  /** The throwing part of `new CharDiffLogic(options)`: without a `base` or a
      `diff` no puzzle is built. */
  method NewCharDiff(difficulty: string, base: string, diff: string,
                     matrix: Option<seq<seq<string>>>, diffAt: Option<(int, int)>, dr: nat, dc: nat)
    returns (r: Result<CharDiffLogic, string>)
    requires matrix.Some? ==> IsGrid(matrix.value, ConfigFor(DifficultyOrDefault(difficulty)).rows,
                                     ConfigFor(DifficultyOrDefault(difficulty)).cols)
    requires matrix.None? ==> dr < ConfigFor(DifficultyOrDefault(difficulty)).rows
                              && dc < ConfigFor(DifficultyOrDefault(difficulty)).cols
    ensures r.Failure? <==> base == "" || diff == ""
    ensures r.Success? ==> fresh(r.value) && r.value.Valid() && r.value.base == base && r.value.diff == diff
    ensures r.Success? ==> r.value.difficulty == DifficultyOrDefault(difficulty) && r.value.State() == Progress(false, []) && r.value.score == 0
    ensures r.Success? && matrix.Some? ==> r.value.matrix == matrix.value && r.value.diffAt == diffAt
    ensures r.Success? && matrix.None? ==> r.value.diffAt == Some((dr, dc))
  {
    if base == "" || diff == "" {
      return Failure("CharDiffLogic: base and diff are required");
    }
    var logic := new CharDiffLogic(difficulty, base, diff, matrix, diffAt, dr, dc);
    return Success(logic);
  }
}

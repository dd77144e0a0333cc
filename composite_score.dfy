/** The composite-score game template (`CompositeScoreLogic` of
    compositeScore.js): a game scored by a base, plus a bonus per second left,
    less a penalty per wrong action, clamped between a floor and a ceiling. */
module CompositeScore {
  import opened Common

  /** The five parameters of a composite score. */
  datatype ScoreConfig = ScoreConfig(
    baseScore: int,
    timeBonusRate: real,
    errorPenalty: int,
    minScore: int,
    maxScore: int)

  /** A configuration that rewards time, punishes errors, and whose ceiling the
      base score alone reaches. */
  predicate WellFormed(cfg: ScoreConfig)
  {
    && 0.0 <= cfg.timeBonusRate && 0 <= cfg.errorPenalty
    && cfg.minScore <= cfg.maxScore <= cfg.baseScore
  }

  /** `max(minScore, min(maxScore, base + floor(remaining * rate) - wrong * penalty))`,
      the formula both score templates use. */
  function Formula(cfg: ScoreConfig, wrongCount: nat, remainingSec: real): (s: int)
    ensures cfg.minScore <= s
    ensures cfg.minScore <= cfg.maxScore ==> s <= cfg.maxScore
  {
    Clamp(cfg.minScore, cfg.maxScore, RawScore(cfg, wrongCount, remainingSec))
  }

  /** The score before clamping. */
  function RawScore(cfg: ScoreConfig, wrongCount: nat, remainingSec: real): int
  {
    cfg.baseScore + Floor(remainingSec * cfg.timeBonusRate) - wrongCount * cfg.errorPenalty
  }

  /** Under a well-formed configuration, more errors never raise the score and
      more time left never lowers it. */
  lemma FormulaMonotone(cfg: ScoreConfig, w1: nat, w2: nat, r1: real, r2: real)
    requires WellFormed(cfg) && w1 <= w2 && r1 <= r2
    ensures Formula(cfg, w2, r1) <= Formula(cfg, w1, r2)
  {
    RawScoreMonotone(cfg, w1, w2, r1, r2);
    ClampMonotone(cfg.minScore, cfg.maxScore, RawScore(cfg, w2, r1), RawScore(cfg, w1, r2));
  }

  lemma RawScoreMonotone(cfg: ScoreConfig, w1: nat, w2: nat, r1: real, r2: real)
    requires WellFormed(cfg) && w1 <= w2 && r1 <= r2
    ensures RawScore(cfg, w2, r1) <= RawScore(cfg, w1, r2)
  {
    ScaleReal(r1, r2, cfg.timeBonusRate);
    FloorMonotone(r1 * cfg.timeBonusRate, r2 * cfg.timeBonusRate);
    ScaleInt(w1, w2, cfg.errorPenalty);
  }

  lemma ScaleReal(a: real, b: real, k: real)
    requires a <= b && 0.0 <= k
    ensures a * k <= b * k
  {
    assert (b - a) * k >= 0.0;
  }

  lemma ClampMonotone(lo: int, hi: int, x: int, y: int)
    requires x <= y
    ensures Clamp(lo, hi, x) <= Clamp(lo, hi, y)
  {
  }

  lemma ScaleInt(a: int, b: int, k: int)
    requires a <= b && 0 <= k
    ensures a * k <= b * k
  {
    assert (b - a) * k >= 0;
  }

  /** Under a well-formed configuration, an error-free finish with time to spare
      scores the ceiling. */
  lemma FlawlessScoresCeiling(cfg: ScoreConfig, remainingSec: real)
    requires WellFormed(cfg) && 0.0 <= remainingSec
    ensures Formula(cfg, 0, remainingSec) == cfg.maxScore
  {
    assert 0.0 <= remainingSec * cfg.timeBonusRate;
  }

  /** The three difficulty tables of `_getConfig`. */
  const Configs: map<string, ScoreConfig> := map[
    "easy" := ScoreConfig(100, 1.5, 8, 10, 100),
    "normal" := ScoreConfig(100, 1.5, 8, 10, 100),
    "hard" := ScoreConfig(100, 1.5, 10, 10, 100)
  ]

  /** `_getConfig(difficulty)`: the table of a known difficulty, otherwise the
      normal one. Every table scores in [10, 100] and only hard punishes harder. */
  function GetConfig(difficulty: string): (cfg: ScoreConfig)
    ensures difficulty in Configs ==> cfg == Configs[difficulty]
    ensures difficulty !in Configs ==> cfg == Configs["normal"]
    ensures WellFormed(cfg) && cfg.minScore == 10 && cfg.maxScore == 100
    ensures cfg.errorPenalty == (if difficulty == "hard" then 10 else 8)
  {
    if difficulty in Configs then Configs[difficulty] else Configs["normal"]
  }

  /** `options.difficulty || 'normal'`, an empty string standing for an absent one. */
  function DifficultyOrDefault(difficulty: string): (d: string)
    ensures d != "" && (difficulty != "" ==> d == difficulty)
  {
    if difficulty == "" then "normal" else difficulty
  }

  /** `getScoreBreakdown(remainingSec)`. */
  datatype Breakdown = Breakdown(
    totalScore: int,
    baseScore: int,
    timeBonus: int,
    penalty: int,
    wrongCount: nat,
    remainingSec: real)

  /** The parts of the score, which put back together give the total. */
  function ScoreBreakdown(cfg: ScoreConfig, wrongCount: nat, remainingSec: real): (b: Breakdown)
    ensures b.totalScore == Formula(cfg, wrongCount, remainingSec)
    ensures b.totalScore == Clamp(cfg.minScore, cfg.maxScore, b.baseScore + b.timeBonus - b.penalty)
    ensures b.penalty == wrongCount * cfg.errorPenalty && b.baseScore == cfg.baseScore
    ensures b.timeBonus == Floor(remainingSec * cfg.timeBonusRate)
    ensures b.wrongCount == wrongCount && b.remainingSec == remainingSec
  {
    Breakdown(Formula(cfg, wrongCount, remainingSec), cfg.baseScore,
              Floor(remainingSec * cfg.timeBonusRate), wrongCount * cfg.errorPenalty,
              wrongCount, remainingSec)
  }

  /** The fields an action changes. */
  datatype Progress = Progress(wrongCount: nat, isComplete: bool, score: int)

  /** What `handleAction` returns. */
  datatype ActionResult = Wrong(wrongCount: nat) | Completed(isComplete: bool)

  /** `handleAction(isCorrect)`: a wrong action adds one error and nothing else;
      a right one completes the game and stores the score with no time bonus. */
  function ActionStep(cfg: ScoreConfig, p: Progress, isCorrect: bool): (r: (Progress, ActionResult))
    ensures !isCorrect ==> r.0 == p.(wrongCount := p.wrongCount + 1) && r.1 == Wrong(r.0.wrongCount)
    ensures isCorrect ==> r.0.isComplete && r.0.wrongCount == p.wrongCount && r.1 == Completed(true)
    ensures isCorrect ==> r.0.score == Formula(cfg, p.wrongCount, 0.0)
  {
    if !isCorrect then
      var q := p.(wrongCount := p.wrongCount + 1);
      (q, Wrong(q.wrongCount))
    else
      (Progress(p.wrongCount, true, Formula(cfg, p.wrongCount, 0.0)), Completed(true))
  }

  /** A run of actions from a given progress. */
  function Run(cfg: ScoreConfig, p: Progress, actions: seq<bool>): Progress
    decreases |actions|
  {
    if actions == [] then p else Run(cfg, ActionStep(cfg, p, actions[0]).0, actions[1..])
  }

  function CountWrong(actions: seq<bool>): nat
  {
    if actions == [] then 0 else (if actions[0] then 0 else 1) + CountWrong(actions[1..])
  }

  /** The error count is the number of wrong actions, and once complete a game
      stays complete with a score within the configured bounds. */
  lemma {:induction false} RunCountsWrong(cfg: ScoreConfig, p: Progress, actions: seq<bool>)
    requires WellFormed(cfg)
    requires p.isComplete ==> cfg.minScore <= p.score <= cfg.maxScore
    ensures Run(cfg, p, actions).wrongCount == p.wrongCount + CountWrong(actions)
    ensures p.isComplete ==> Run(cfg, p, actions).isComplete
    ensures Run(cfg, p, actions).isComplete ==> cfg.minScore <= Run(cfg, p, actions).score <= cfg.maxScore
    decreases |actions|
  {
    if actions != [] {
      RunCountsWrong(cfg, ActionStep(cfg, p, actions[0]).0, actions[1..]);
    }
  }

  /** A game completed before any error scores the ceiling. */
  lemma FirstTryScoresCeiling(cfg: ScoreConfig, p: Progress)
    requires WellFormed(cfg) && p.wrongCount == 0
    ensures ActionStep(cfg, p, true).0.score == cfg.maxScore
  {
    FlawlessScoresCeiling(cfg, 0.0);
  }

  /** The template game: its difficulty and configuration, and its progress. */
  class CompositeScoreLogic {
    const difficulty: string
    const config: ScoreConfig
    var isComplete: bool
    var wrongCount: nat
    var score: int

    /** The configuration is the table of the difficulty. */
    predicate Valid()
    {
      config == GetConfig(difficulty)
    }

    function State(): Progress
      reads this
    {
      Progress(wrongCount, isComplete, score)
    }

    /** `new CompositeScoreLogic({difficulty})`, an empty difficulty standing for
        an absent one. */
    constructor (difficulty: string)
      ensures Valid() && this.difficulty == DifficultyOrDefault(difficulty)
      ensures State() == Progress(0, false, 0)
    {
      this.difficulty := DifficultyOrDefault(difficulty);
      config := GetConfig(DifficultyOrDefault(difficulty));
      isComplete := false;
      wrongCount := 0;
      score := 0;
    }

    /** `handleAction(isCorrect)`. */
    method HandleAction(isCorrect: bool) returns (res: ActionResult)
      requires Valid()
      modifies this
      ensures (State(), res) == ActionStep(config, old(State()), isCorrect)
    {
      if !isCorrect {
        wrongCount := wrongCount + 1;
        return Wrong(wrongCount);
      }
      isComplete := true;
      score := CalcScore(0.0);
      res := Completed(isComplete);
    }

    /** `calcScore(remainingSec)`: always within [10, 100], and 100 with no
        error and time to spare. */
    function CalcScore(remainingSec: real): (s: int)
      requires Valid()
      reads this
      ensures 10 <= s <= 100
      ensures wrongCount == 0 && 0.0 <= remainingSec ==> s == 100
    {
      var s := Formula(config, wrongCount, remainingSec);
      assert wrongCount == 0 && 0.0 <= remainingSec ==> s == 100 by {
        if wrongCount == 0 && 0.0 <= remainingSec {
          FlawlessScoresCeiling(config, remainingSec);
        }
      }
      s
    }

    /** `calcFinalScore(remainingSec)` is the same score. */
    function CalcFinalScore(remainingSec: real): (s: int)
      requires Valid()
      reads this
      ensures 10 <= s <= 100
    {
      CalcScore(remainingSec)
    }

    /** `getScoreBreakdown(remainingSec)`: its total is the final score and its
        penalty the errors times the configured penalty. */
    function GetScoreBreakdown(remainingSec: real): (b: Breakdown)
      requires Valid()
      reads this
      ensures b.totalScore == CalcFinalScore(remainingSec)
      ensures b.penalty == wrongCount * config.errorPenalty && b.wrongCount == wrongCount
    {
      ScoreBreakdown(config, wrongCount, remainingSec)
    }
  }
}

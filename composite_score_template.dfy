/** The configurable composite-score template (`CompositeScoreLogic` of
    compositeScoreTemplate.js): the same clamped formula as the composite-score
    game, with the configuration supplied by the caller or defaulted, and the
    final score stored on the object. */
module CompositeScoreTemplate {
  import opened Common
  import CompositeScore

  type ScoreConfig = CompositeScore.ScoreConfig

  /** The configuration used when the caller supplies none. */
  const DefaultConfig: ScoreConfig := CompositeScore.ScoreConfig(100, 1.5, 8, 10, 100)

  /** `CompositeScoreLogic.DIFFICULTY_CONFIGS`. */
  const DifficultyConfigs: map<string, ScoreConfig> := map[
    "easy" := CompositeScore.ScoreConfig(100, 2.0, 5, 10, 100),
    "normal" := CompositeScore.ScoreConfig(100, 1.5, 8, 10, 100),
    "hard" := CompositeScore.ScoreConfig(100, 1.0, 10, 10, 100)
  ]

  /** Every offered configuration, the default included, scores within [10, 100],
      and a flawless finish scores 100 under each of them. */
  lemma OfferedConfigsScoreInRange(cfg: ScoreConfig, wrongCount: nat, remainingSec: real)
    requires cfg == DefaultConfig || cfg in DifficultyConfigs.Values
    ensures 10 <= CompositeScore.Formula(cfg, wrongCount, remainingSec) <= 100
    ensures wrongCount == 0 && 0.0 <= remainingSec ==> CompositeScore.Formula(cfg, wrongCount, remainingSec) == 100
  {
    assert CompositeScore.WellFormed(cfg) && cfg.minScore == 10 && cfg.maxScore == 100 by {
      if cfg != DefaultConfig {
        var d :| d in DifficultyConfigs && DifficultyConfigs[d] == cfg;
      }
    }
    if wrongCount == 0 && 0.0 <= remainingSec {
      CompositeScore.FlawlessScoresCeiling(cfg, remainingSec);
    }
  }

  /** The easy table rewards time most and punishes least; the hard one the
      reverse. */
  lemma EasierIsKinder(wrongCount: nat, remainingSec: real)
    requires 0.0 <= remainingSec
    ensures CompositeScore.Formula(DifficultyConfigs["hard"], wrongCount, remainingSec)
         <= CompositeScore.Formula(DifficultyConfigs["normal"], wrongCount, remainingSec)
         <= CompositeScore.Formula(DifficultyConfigs["easy"], wrongCount, remainingSec)
  {
    var r := remainingSec;
    assert Floor(r * 1.0) <= Floor(r * 1.5) <= Floor(r * 2.0) by {
      FloorMonotone(r * 1.0, r * 1.5);
      FloorMonotone(r * 1.5, r * 2.0);
    }
  }

  /** `getScoreBreakdown(remainingSec, totalSec)`. */
  datatype Breakdown = Breakdown(
    totalScore: int,
    baseScore: int,
    timeBonus: int,
    errorPenalty: int,
    remainingSec: real,
    wrongCount: nat)

  /** The template object: a difficulty label, a configuration, and progress. */
  class CompositeScoreLogic {
    const difficulty: string
    const config: ScoreConfig
    var wrongCount: nat
    var isComplete: bool
    var score: int

    /** `new CompositeScoreLogic({difficulty, config})`: the supplied
        configuration, or the default one; the difficulty is only a label. */
    constructor (difficulty: string, config: Option<ScoreConfig>)
      ensures this.difficulty == CompositeScore.DifficultyOrDefault(difficulty)
      ensures config.Some? ==> this.config == config.value
      ensures config.None? ==> this.config == DefaultConfig
      ensures wrongCount == 0 && !isComplete && score == 0
    {
      this.difficulty := CompositeScore.DifficultyOrDefault(difficulty);
      this.config := if config.Some? then config.value else DefaultConfig;
      wrongCount := 0;
      isComplete := false;
      score := 0;
    }

    /** `recordWrong()`: one more error, nothing else. */
    method RecordWrong()
      modifies this`wrongCount
      ensures wrongCount == old(wrongCount) + 1
    {
      wrongCount := wrongCount + 1;
    }

    /** `calcFinalScore(remainingSec, totalSec)`: the formula on the errors so
        far, which ignores `totalSec`; the score is also stored. */
    method CalcFinalScore(remainingSec: real, totalSec: real) returns (s: int)
      modifies this`score
      ensures s == CompositeScore.Formula(config, wrongCount, remainingSec) && score == s
      ensures config.minScore <= s
    {
      var timeBonus := Floor(remainingSec * config.timeBonusRate);
      var errorPenalty := wrongCount * config.errorPenalty;
      var rawScore := config.baseScore + timeBonus - errorPenalty;
      s := Max(config.minScore, Min(config.maxScore, rawScore));
      score := s;
    }

    /** `getScoreBreakdown(remainingSec, totalSec)`: the parts of the score, whose
        total is the final score (stored as a side effect). */
    method GetScoreBreakdown(remainingSec: real, totalSec: real) returns (b: Breakdown)
      modifies this`score
      ensures b.totalScore == CompositeScore.Formula(config, wrongCount, remainingSec) && score == b.totalScore
      ensures b.totalScore == Clamp(config.minScore, config.maxScore, b.baseScore + b.timeBonus - b.errorPenalty)
      ensures b.errorPenalty == wrongCount * config.errorPenalty && b.baseScore == config.baseScore
      ensures b.timeBonus == Floor(remainingSec * config.timeBonusRate)
      ensures b.wrongCount == wrongCount && b.remainingSec == remainingSec
    {
      var timeBonus := Floor(remainingSec * config.timeBonusRate);
      var errorPenalty := wrongCount * config.errorPenalty;
      var total := CalcFinalScore(remainingSec, totalSec);
      b := Breakdown(total, config.baseScore, timeBonus, errorPenalty, remainingSec, wrongCount);
    }
  }
}

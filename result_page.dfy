/** The result page (`pages/result/result.js`): it reads the outcome of a game
    from its URL query, chooses the title, icon and texts it shows, and sends
    the player on to the next level or back to level 1. The query arrives as a
    map from parameter names to their text; navigation is the query of the
    game page it opens. */
module ResultPage {
  import opened Common
  import GamePage

  /** `GAME_NAMES`. */
  const GameNames: map<string, string> := map[
    "wordFind" := "国风找成语",
    "charDiff" := "汉字找不同",
    "poetryConnect" := "诗词连线"
  ]

  /** `GAME_ICONS`. */
  const GameIcons: map<string, string> := map[
    "wordFind" := "📜",
    "charDiff" := "🔍",
    "poetryConnect" := "🖌️"
  ]

  /** The text of a query parameter; a missing one reads like an empty one. */
  function Param(options: map<string, string>, name: string): string
  {
    if name in options then options[name] else ""
  }

  /** `parseInt(s, 10) || 0`. */
  function IntOrZero(s: string): (v: int)
    ensures ParseInt(s).None? ==> v == 0
    ensures ParseInt(s).Some? ==> v == ParseInt(s).value
  {
    match ParseInt(s)
    case None => 0
    case Some(v) => v
  }

  /** The three outcomes the page can show. */
  datatype Verdict = Passed | TimedOut | TryAgain

  function Emoji(v: Verdict): string
  {
    match v
    case Passed => "🎉"
    case TimedOut => "⏰"
    case TryAgain => "💪"
  }

  function Message(v: Verdict): string
  {
    match v
    case Passed => "恭喜过关！"
    case TimedOut => "时间到！"
    case TryAgain => "再接再厉"
  }

  /** The page data `onLoad` sets. */
  datatype ResultView = ResultView(
    gameId: string,
    level: int,
    success: bool,
    score: int,
    remaining: int,
    total: int,
    gameName: string,
    gameIcon: string,
    resultEmoji: string,
    resultText: string,
    timeText: string)

  /** The verdict: a win, a loss with the clock run out, or another loss. */
  function VerdictOf(success: bool, remaining: int, total: int): (v: Verdict)
    ensures v == Passed <==> success
    ensures v == TimedOut <==> !success && remaining <= 0 && total > 0
    ensures v == TryAgain <==> !success && !(remaining <= 0 && total > 0)
  {
    if success then Passed else if remaining <= 0 && total > 0 then TimedOut else TryAgain
  }

  /** The time line: nothing without a positive total; the time used and the
      time left after a win; the total after a loss. */
  function TimeText(success: bool, remaining: int, total: int): (t: string)
    ensures t == "" <==> total <= 0
    ensures total > 0 && success ==> t == "用时 " + IntToString(total - remaining) + "秒（剩余" + IntToString(remaining) + "秒）"
    ensures total > 0 && !success ==> t == "时间到！共 " + IntToString(total) + "秒"
  {
    if total > 0 then
      if success then "用时 " + IntToString(total - remaining) + "秒（剩余" + IntToString(remaining) + "秒）"
      else "时间到！共 " + IntToString(total) + "秒"
    else ""
  }

  /** `onLoad(options)`. */
  function OnLoad(options: map<string, string>): (r: ResultView)
    ensures r.gameId == Param(options, "gameId")
    ensures r.level == GamePage.LevelParam(Param(options, "level")) && r.level != 0
    ensures r.success <==> Param(options, "success") == "1"
    ensures r.score == IntOrZero(Param(options, "score"))
    ensures r.remaining == IntOrZero(Param(options, "remaining")) && r.total == IntOrZero(Param(options, "total"))
    ensures r.gameName == (if r.gameId in GameNames then GameNames[r.gameId] else "游戏")
    ensures r.gameIcon == (if r.gameId in GameIcons then GameIcons[r.gameId] else "🎮")
    ensures r.resultEmoji == Emoji(VerdictOf(r.success, r.remaining, r.total))
    ensures r.resultText == Message(VerdictOf(r.success, r.remaining, r.total))
    ensures r.timeText == TimeText(r.success, r.remaining, r.total)
  {
    var gameId := Param(options, "gameId");
    var success := Param(options, "success") == "1";
    var remaining := IntOrZero(Param(options, "remaining"));
    var total := IntOrZero(Param(options, "total"));
    var verdict := VerdictOf(success, remaining, total);
    ResultView(
      gameId,
      GamePage.LevelParam(Param(options, "level")),
      success,
      IntOrZero(Param(options, "score")),
      remaining,
      total,
      if gameId in GameNames then GameNames[gameId] else "游戏",
      if gameId in GameIcons then GameIcons[gameId] else "🎮",
      Emoji(verdict),
      Message(verdict),
      TimeText(success, remaining, total))
  }

  /** The query the game page's `goResult` writes, for whole seconds. */
  function ResultQuery(gameId: string, level: int, success: bool, score: int, remaining: int, total: int)
    : map<string, string>
  {
    map["gameId" := gameId, "level" := IntToString(level), "success" := (if success then "1" else "0"),
        "score" := IntToString(score), "remaining" := IntToString(remaining), "total" := IntToString(total)]
  }

  /** The result page reads back what the game page reported. */
  lemma {:induction false} ResultQueryRoundTrip(gameId: string, level: int, success: bool, score: int, remaining: int, total: int)
    requires level != 0
    ensures var r := OnLoad(ResultQuery(gameId, level, success, score, remaining, total));
            r.gameId == gameId && r.level == level && r.success == success && r.score == score
            && r.remaining == remaining && r.total == total
  {
    GamePage.LevelParamRoundTrip(level);
    ParseIntRoundTrip(score);
    ParseIntRoundTrip(remaining);
    ParseIntRoundTrip(total);
  }

  /** The level `onMainBtn` opens: the next one after a win, level 1 after a loss. */
  function NextLevel(view: ResultView): (next: int)
    ensures view.success ==> next == view.level + 1
    ensures !view.success ==> next == 1
  {
    if view.success then view.level + 1 else 1
  }

  /** The query of the game page `onMainBtn` opens; it always starts at once. */
  function NextGameQuery(view: ResultView): (q: map<string, string>)
    ensures q.Keys == {"gameId", "level", "autoStart"} && q["autoStart"] == "1"
    ensures q["gameId"] == view.gameId
  {
    map["gameId" := view.gameId, "level" := IntToString(NextLevel(view)), "autoStart" := "1"]
  }

  /** The game page opened from the result page plays the level after a won
      one, and level 1 after a lost one. */
  lemma {:induction false} NextGameLevel(view: ResultView)
    requires view.level != -1
    ensures GamePage.LevelParam(NextGameQuery(view)["level"]) == if view.success then view.level + 1 else 1
  {
    GamePage.LevelParamRoundTrip(NextLevel(view));
  }
}

/** The hidden game (gameLogic/hiddenGame.js): the client unlocks it once
    enough theme packs are unlocked, and it shows a fixed bonus card. */
module HiddenGame {
  import opened Common
  import UserModel

  /** `UNLOCK_THEME_COUNT`: themes needed for the hidden game. */
  const UnlockThemeCount: nat := 2

  /** `canUnlockHidden(unlockedThemes)`: `null` or `undefined` (`None`) counts
      as no theme. */
  function CanUnlockHidden(unlockedThemes: Option<seq<string>>): (ok: bool)
    ensures unlockedThemes.None? ==> !ok
    ensures unlockedThemes.Some? ==> (ok <==> |unlockedThemes.value| >= UnlockThemeCount)
  {
    var themes := if unlockedThemes.Some? then unlockedThemes.value else [];
    |themes| >= UnlockThemeCount
  }

  /** A longer theme list never withdraws the hidden game, and unlocking a theme
      on the server (adding it when absent) keeps it unlocked. */
  lemma {:induction false} UnlockIsMonotone(themes: seq<string>, more: seq<string>, themeId: string)
    requires CanUnlockHidden(Some(themes))
    ensures CanUnlockHidden(Some(themes + more))
    ensures CanUnlockHidden(Some(UserModel.AddUnique(themes, themeId)))
  {
  }

  /** Two distinct themes are exactly enough. */
  lemma TwoDistinctThemesUnlock(a: string, b: string)
    requires a != b
    ensures CanUnlockHidden(Some(UserModel.AddUnique(UserModel.AddUnique([], a), b)))
    ensures !CanUnlockHidden(Some(UserModel.AddUnique(UserModel.AddUnique([], a), a)))
  {
  }

  /** The bonus card. */
  datatype HiddenGameData = HiddenGameData(name: string, hint: string, steps: seq<string>)

  /** `getHiddenGameData()`: a fixed card of three steps. */
  function GetHiddenGameData(): (d: HiddenGameData)
    ensures |d.steps| == 3 && d.name != "" && d.hint != ""
  {
    HiddenGameData("墨韵彩蛋", "折扇轻展，祥云自来。", ["点击折扇", "观看祥云动画", "获得彩蛋祝福"])
  }
}

/** The theme packs (gameLogic/themePackage.js): the four themes, the games
    each theme applies to, lookups with their defaults, and the loading of a
    theme's data through a fetcher supplied by the caller. */
module ThemePackage {
  import opened Common

  /** A theme record. */
  datatype Theme = Theme(id: string, name: string, color: string, icon: string)

  /** `THEMES`, keyed by theme id. */
  const Themes: map<string, Theme> := map[
    "spring" := Theme("spring", "春节", "#C82506", "spring"),
    "midAutumn" := Theme("midAutumn", "中秋", "#1E6F9F", "moon"),
    "child" := Theme("child", "儿童启蒙", "#2E7D32", "child"),
    "wuxia" := Theme("wuxia", "古风武侠", "#232323", "sword")
  ]

  /** The order in which `THEMES` declares its keys. */
  const ThemeOrder: seq<string> := ["spring", "midAutumn", "child", "wuxia"]

  /** `THEME_GAME_MAP`: the themes each game comes in. */
  const ThemeGameMap: map<string, seq<string>> := map[
    "wordFind" := ["spring", "midAutumn"],
    "charDiff" := ["spring", "child"],
    "poetryConnect" := ["spring", "midAutumn", "wuxia"]
  ]

  /** Every theme a game lists is a theme, and every theme is filed under its
      own id. */
  lemma ThemeTablesAgree()
    ensures forall g, k :: g in ThemeGameMap && 0 <= k < |ThemeGameMap[g]| ==> ThemeGameMap[g][k] in Themes
    ensures forall t :: t in Themes ==> Themes[t].id == t
    ensures Elements(ThemeOrder) == Themes.Keys && NoDup(ThemeOrder)
  {
    assert ThemeGameMap.Keys == {"wordFind", "charDiff", "poetryConnect"};
    assert Themes.Keys == {"spring", "midAutumn", "child", "wuxia"};
  }

  /** `getThemeList()`: the theme records in declaration order. */
  function GetThemeList(): (l: seq<Theme>)
    ensures |l| == |ThemeOrder| == 4
    ensures forall k :: 0 <= k < |l| ==> ThemeOrder[k] in Themes && l[k] == Themes[ThemeOrder[k]]
  {
    [Themes["spring"], Themes["midAutumn"], Themes["child"], Themes["wuxia"]]
  }

  /** The list holds every theme exactly once. */
  lemma ThemeListIsEveryTheme()
    ensures forall t :: t in Themes.Values <==> t in GetThemeList()
    ensures forall i, j :: 0 <= i < j < |GetThemeList()| ==> GetThemeList()[i] != GetThemeList()[j]
  {
    var l := GetThemeList();
    assert Themes.Keys == {"spring", "midAutumn", "child", "wuxia"};
    forall t | t in Themes.Values
      ensures t in l
    {
      var k :| k in Themes && Themes[k] == t;
      assert t == l[0] || t == l[1] || t == l[2] || t == l[3];
    }
  }

  /** `getThemeById(themeId)`: the record of a known id, `null` otherwise. */
  function GetThemeById(themeId: string): (t: Option<Theme>)
    ensures t.Some? <==> themeId in Themes
    ensures t.Some? ==> t.value == Themes[themeId] && t.value.id == themeId
  {
    if themeId in Themes then Some(Themes[themeId]) else None
  }

  /** `getThemesForGame(gameId)`: the game's themes, `[]` for an unknown game. */
  function GetThemesForGame(gameId: string): (l: seq<string>)
    ensures gameId in ThemeGameMap ==> l == ThemeGameMap[gameId]
    ensures gameId !in ThemeGameMap ==> l == []
    ensures forall k :: 0 <= k < |l| ==> GetThemeById(l[k]).Some?
  {
    ThemeTablesAgree();
    if gameId in ThemeGameMap then ThemeGameMap[gameId] else []
  }

  /** What `loadThemeData` resolves with (`JNull` for `null`). */
  datatype ThemeLoad = ThemeLoad(themeData: Json, material: Json)

  const NothingLoaded := ThemeLoad(JNull, JNull)

  /** `obj.name`, `undefined` (here `JNull`) when absent. */
  function Member(obj: Json, name: string): (m: Json)
    ensures obj.JObj? && name in obj.fields ==> m == obj.fields[name]
    ensures !(obj.JObj? && name in obj.fields) ==> m == JNull
  {
    if obj.JObj? && name in obj.fields then obj.fields[name] else JNull
  }

  /** `loadThemeData(themeId, apiGetTheme)`: an unknown theme loads nothing and
      does not call the fetcher; a fetch that fails loads nothing, and so does a
      `null` answer, whose members cannot be read; otherwise the answer's
      `themeData` (or the whole answer when that is falsy) and its `material`
      (or `null`). */
  function LoadThemeData(themeId: string, apiGetTheme: string -> Result<Json, string>): (r: ThemeLoad)
    ensures themeId !in Themes ==> r == NothingLoaded
    ensures themeId in Themes && (apiGetTheme(themeId).Failure? || apiGetTheme(themeId) == Success(JNull)) ==>
              r == NothingLoaded
    ensures themeId in Themes && apiGetTheme(themeId).Success? && apiGetTheme(themeId).value != JNull ==>
              var res := apiGetTheme(themeId).value;
              r.themeData == (if Truthy(Member(res, "themeData")) then Member(res, "themeData") else res)
              && r.material == (if Truthy(Member(res, "material")) then Member(res, "material") else JNull)
  {
    if GetThemeById(themeId).None? then NothingLoaded
    else
      match apiGetTheme(themeId)
      case Failure(_) => NothingLoaded
      case Success(res) =>
        if res == JNull then NothingLoaded
        else
          var themeData := Member(res, "themeData");
          var material := Member(res, "material");
          ThemeLoad(if Truthy(themeData) then themeData else res, if Truthy(material) then material else JNull)
  }

  /** The fetcher plays no part for an unknown theme. */
  lemma UnknownThemeSkipsFetcher(themeId: string, f: string -> Result<Json, string>, g: string -> Result<Json, string>)
    requires themeId !in Themes
    ensures LoadThemeData(themeId, f) == LoadThemeData(themeId, g) == NothingLoaded
  {
  }

  /** For a known theme, the load depends only on the fetcher's answer for that
      theme, and an answer without a truthy `themeData` is itself the data. */
  lemma {:induction false} LoadDependsOnAnswer(themeId: string, f: string -> Result<Json, string>, g: string -> Result<Json, string>)
    requires themeId in Themes && f(themeId) == g(themeId)
    ensures LoadThemeData(themeId, f) == LoadThemeData(themeId, g)
    ensures f(themeId).Success? && f(themeId).value.JObj? && "themeData" !in f(themeId).value.fields ==>
              LoadThemeData(themeId, f).themeData == f(themeId).value
  {
  }
}

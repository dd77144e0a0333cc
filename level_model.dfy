/** The server's level table access (levelModel.js): which table a game reads,
    the server's time limits, the query `getLevelData` sends, and the payload
    `parseLevelRow` makes of the row that comes back. Running the query is not
    modelled: its outcome is an input. */
module LevelModel {
  import opened Common

  /** `GAME_TABLE_MAP`: the level table of each game. */
  const GameTableMap: map<string, string> := map[
    "wordFind" := "t_level_word_find",
    "charDiff" := "t_level_char_diff",
    "poetryConnect" := "t_level_poetry_connect"
  ]

  /** `TIME_LIMIT_CONFIG`: seconds per game and difficulty on the server. */
  const TimeLimitConfig: map<string, map<string, nat>> := map[
    "wordFind" := map["easy" := 20, "normal" := 30, "hard" := 40],
    "charDiff" := map["easy" := 10, "normal" := 20, "hard" := 30, "hell" := 30],
    "poetryConnect" := map["easy" := 10, "normal" := 20, "hard" := 30]
  ]

  /** `getTimeLimit(gameId, difficulty)`: the table entry when there is a (truthy)
      one, and `null` otherwise. */
  function GetTimeLimit(gameId: string, difficulty: string): (t: Option<nat>)
    ensures t.Some? <==> gameId in TimeLimitConfig && difficulty in TimeLimitConfig[gameId]
    ensures t.Some? ==> t.value == TimeLimitConfig[gameId][difficulty] && t.value > 0
  {
    if gameId in TimeLimitConfig && difficulty in TimeLimitConfig[gameId]
       && TimeLimitConfig[gameId][difficulty] != 0
    then Some(TimeLimitConfig[gameId][difficulty])
    else None
  }

  /** Only the spot-the-difference game has a hell limit; the other games get
      `null` there, and every game with a table has the three plain levels. */
  lemma ServerTimeLimits()
    ensures GetTimeLimit("wordFind", "hell") == None
    ensures GetTimeLimit("poetryConnect", "hell") == None
    ensures GetTimeLimit("charDiff", "hell") == Some(30)
    ensures forall g :: g in GameTableMap ==>
              GetTimeLimit(g, "easy").Some? && GetTimeLimit(g, "normal").Some? && GetTimeLimit(g, "hard").Some?
    ensures GetTimeLimit("unknownGame", "easy") == None
  {
    assert GameTableMap.Keys == {"wordFind", "charDiff", "poetryConnect"};
  }

  // ---------------------------------------------------------------------------
  // The query (`getLevelData`)
  // ---------------------------------------------------------------------------

  /** The clauses `getLevelData` puts together, in order. */
  datatype Clause =
    | SelectFrom(table: string)   // `SELECT * FROM <table>`
    | WhereDifficulty             // ` WHERE difficulty = ?`
    | ThemeOrShared               // ` AND (theme_id = ? OR theme_id IS NULL)`
    | RandomRow                   // ` ORDER BY RAND() LIMIT 1`

  function ClauseText(c: Clause): string
  {
    match c
    case SelectFrom(table) => "SELECT * FROM " + table
    case WhereDifficulty => " WHERE difficulty = ?"
    case ThemeOrShared => " AND (theme_id = ? OR theme_id IS NULL)"
    case RandomRow => " ORDER BY RAND() LIMIT 1"
  }

  /** The `?` placeholders of a clause. */
  function ClausePlaceholders(c: Clause): nat
  {
    match c
    case SelectFrom(_) => 0
    case WhereDifficulty => 1
    case ThemeOrShared => 1
    case RandomRow => 0
  }

  /** A statement and its positional parameters. */
  datatype Query = Query(clauses: seq<Clause>, params: seq<string>)

  /** The text sent to the database. */
  function SqlText(clauses: seq<Clause>): string
  {
    if clauses == [] then "" else ClauseText(clauses[0]) + SqlText(clauses[1..])
  }

  function Placeholders(clauses: seq<Clause>): nat
  {
    if clauses == [] then 0 else ClausePlaceholders(clauses[0]) + Placeholders(clauses[1..])
  }

  /** The checks `getLevelData` makes before it queries, and the statement it
      sends: `None` for a game with no table or an empty difficulty; otherwise
      a select from the game's table with one placeholder per parameter, the
      difficulty first, the theme filter only for the spot-the-difference game
      with a theme, and always one random row. An empty `themeId` stands for an
      absent one. */
  function BuildQuery(gameId: string, difficulty: string, themeId: string): (q: Option<Query>)
    ensures q.None? <==> gameId !in GameTableMap || difficulty == ""
    ensures q.Some? ==> Placeholders(q.value.clauses) == |q.value.params|
    ensures q.Some? ==> |q.value.params| >= 1 && |q.value.clauses| >= 3
    ensures q.Some? ==> q.value.params[0] == difficulty
    ensures q.Some? ==> (themeId in q.value.params[1..] <==> themeId != "" && gameId == "charDiff")
    ensures q.Some? ==> (ThemeOrShared in q.value.clauses <==> themeId != "" && gameId == "charDiff")
    ensures q.Some? ==> q.value.clauses[0] == SelectFrom(GameTableMap[gameId])
    ensures q.Some? ==> q.value.clauses[|q.value.clauses| - 1] == RandomRow
  {
    if gameId !in GameTableMap || difficulty == "" then None
    else
      var table := SelectFrom(GameTableMap[gameId]);
      if themeId != "" && gameId == "charDiff" then
        var clauses := [table, WhereDifficulty, ThemeOrShared, RandomRow];
        assert Placeholders(clauses[3..]) == 0 && Placeholders(clauses[2..]) == 1;
        Some(Query(clauses, [difficulty, themeId]))
      else
        var clauses := [table, WhereDifficulty, RandomRow];
        assert Placeholders(clauses[2..]) == 0;
        Some(Query(clauses, [difficulty]))
  }

  // ---------------------------------------------------------------------------
  // The payload (`parseLevelRow`)
  // ---------------------------------------------------------------------------

  /** The columns of a level row the server reads (`NULL` is `JNull`). */
  datatype Row = Row(answer: Json, sameChar: Json, diffChar: Json, levelData: Json, themeId: Json)

  /** What `getLevelData` resolves with. */
  datatype LevelRecord = LevelRecord(
    levelData: Json,
    answer: Json,
    themeId: Json,
    difficulty: string,
    timeLimit: Option<nat>)

  const EmptyObject: Json := JObj(map[])

  /** A stored `level_data` column: a string is parsed (`parse` stands for
      `JSON.parse`, `None` for a throw, which leaves `{}`), anything else is
      used as it is. */
  function StoredLevelData(stored: Json, parse: string -> Option<Json>): (d: Json)
    ensures stored.JStr? && parse(stored.s).None? ==> d == EmptyObject
    ensures stored.JStr? && parse(stored.s).Some? ==> d == parse(stored.s).value
    ensures !stored.JStr? ==> d == stored
  {
    match stored
    case JStr(text) => (match parse(text) case Some(j) => j case None => EmptyObject)
    case _ => stored
  }

  /** `parseLevelRow(row, gameId, difficulty)`. */
  function ParseLevelRow(row: Row, gameId: string, difficulty: string, parse: string -> Option<Json>): (r: LevelRecord)
    ensures r.answer == (if gameId == "wordFind" then row.answer else JNull)
    ensures gameId == "wordFind" ==> r.levelData == EmptyObject
    ensures gameId == "charDiff" && Truthy(row.sameChar) && Truthy(row.diffChar) ==>
              r.levelData == JObj(map["base" := row.sameChar, "diff" := row.diffChar])
    ensures gameId != "wordFind" && !(gameId == "charDiff" && Truthy(row.sameChar) && Truthy(row.diffChar)) ==>
              r.levelData == (if Truthy(row.levelData) then StoredLevelData(row.levelData, parse) else EmptyObject)
    ensures r.themeId == (if Truthy(row.themeId) then row.themeId else JNull)
    ensures r.difficulty == difficulty && r.timeLimit == GetTimeLimit(gameId, difficulty)
  {
    var levelData :=
      if gameId == "wordFind" then EmptyObject
      else if gameId == "charDiff" && Truthy(row.sameChar) && Truthy(row.diffChar) then
        JObj(map["base" := row.sameChar, "diff" := row.diffChar])
      else if Truthy(row.levelData) then StoredLevelData(row.levelData, parse)
      else EmptyObject;
    LevelRecord(
      levelData,
      if gameId == "wordFind" then row.answer else JNull,
      if Truthy(row.themeId) then row.themeId else JNull,
      difficulty,
      GetTimeLimit(gameId, difficulty))
  }

  /** The separate characters of a spot-the-difference row win over its
      `level_data` column, and a word-search row never carries level data. */
  lemma CharColumnsWin(row: Row, other: Json, parse: string -> Option<Json>)
    requires Truthy(row.sameChar) && Truthy(row.diffChar)
    ensures ParseLevelRow(row, "charDiff", "easy", parse).levelData
         == ParseLevelRow(row.(levelData := other), "charDiff", "easy", parse).levelData
    ensures ParseLevelRow(row, "wordFind", "easy", parse).levelData == EmptyObject
  {
  }

  /** `getLevelData(gameId, difficulty, level, openid, themeId)`, given what the
      query returned (`Failure` for a query that throws, which is passed on):
      `null` before querying for an unknown game or a missing difficulty, or when
      no row came back; otherwise the first row's payload. */
  function GetLevelData(gameId: string, difficulty: string, themeId: string,
                        rows: Result<seq<Row>, string>, parse: string -> Option<Json>)
    : (r: Result<Option<LevelRecord>, string>)
    ensures BuildQuery(gameId, difficulty, themeId).None? ==> r == Success(None)
    ensures BuildQuery(gameId, difficulty, themeId).Some? && rows.Failure? ==> r == Failure(rows.error)
    ensures BuildQuery(gameId, difficulty, themeId).Some? && rows.Success? ==>
              r == Success(if |rows.value| == 0 then None else Some(ParseLevelRow(rows.value[0], gameId, difficulty, parse)))
    ensures r.Success? && r.value.Some? ==>
              rows.Success? && |rows.value| > 0 && r.value.value == ParseLevelRow(rows.value[0], gameId, difficulty, parse)
    ensures r.Success? && r.value.Some? ==> r.value.value.difficulty == difficulty
  {
    if BuildQuery(gameId, difficulty, themeId).None? then Success(None)
    else if rows.Failure? then Failure(rows.error)
    else if |rows.value| == 0 then Success(None)
    else Success(Some(ParseLevelRow(rows.value[0], gameId, difficulty, parse)))
  }
}

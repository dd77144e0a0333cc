/** The server's user records (userModel.js): the `t_user` table, keyed by
    `openid`, holding unlocked games and themes, best scores and the hidden-game
    flag, and the `t_user_progress` table of last levels. The database is a
    pair of maps; a JSON column is held as the value it decodes to, as empty
    (`NULL` or `''`), or as text that does not parse. */
module UserModel {
  import opened Common

  /** A JSON text column. */
  datatype Stored<T> = Empty | Malformed | Text(value: T)

  /** `if (column) value = JSON.parse(column)` inside a `try`, from `default`. */
  function Decode<T>(column: Stored<T>, default: T): T
  {
    if column.Text? then column.value else default
  }

  /** A `t_user` row. */
  datatype UserRow = UserRow(
    id: int,
    openid: string,
    nickname: string,
    avatar: Option<string>,
    unlockGame: Stored<seq<string>>,
    unlockTheme: Stored<seq<string>>,
    maxScore: Stored<map<string, int>>,
    hiddenUnlock: int)

  /** The user record the server works with. */
  datatype User = User(
    id: int,
    openid: string,
    nickname: string,
    avatar: Option<string>,
    unlockGame: seq<string>,
    unlockTheme: seq<string>,
    maxScore: map<string, int>,
    hiddenUnlock: bool)

  /** A `t_user_progress` row. */
  datatype ProgressRow = ProgressRow(level: int, score: int)

  /** `normalizeUser(row)`: `null` stays `null`; a column that is empty or does
      not parse gives an empty list or object, and the hidden game counts as
      unlocked exactly when the column holds 1. */
  function NormalizeUser(row: Option<UserRow>): (u: Option<User>)
    ensures u.None? <==> row.None?
    ensures u.Some? ==> u.value.id == row.value.id && u.value.openid == row.value.openid
    ensures u.Some? ==> u.value.nickname == row.value.nickname && u.value.avatar == row.value.avatar
    ensures u.Some? ==> (u.value.hiddenUnlock <==> row.value.hiddenUnlock == 1)
    ensures u.Some? && !row.value.unlockGame.Text? ==> u.value.unlockGame == []
    ensures u.Some? && !row.value.unlockTheme.Text? ==> u.value.unlockTheme == []
    ensures u.Some? && !row.value.maxScore.Text? ==> u.value.maxScore == map[]
    ensures u.Some? && row.value.unlockGame.Text? ==> u.value.unlockGame == row.value.unlockGame.value
    ensures u.Some? && row.value.unlockTheme.Text? ==> u.value.unlockTheme == row.value.unlockTheme.value
    ensures u.Some? && row.value.maxScore.Text? ==> u.value.maxScore == row.value.maxScore.value
  {
    match row
    case None => None
    case Some(r) =>
      Some(User(r.id, r.openid, r.nickname, r.avatar,
                Decode(r.unlockGame, []), Decode(r.unlockTheme, []), Decode(r.maxScore, map[]),
                r.hiddenUnlock == 1))
  }

  /** The row `findOrCreate` inserts for a new player. */
  function NewUserRow(id: int, openid: string, nickname: string): UserRow
  {
    UserRow(id, openid, nickname, None, Text([]), Text([]), Text(map[]), 0)
  }

  /** A new player has unlocked nothing, has no best score and no hidden game. */
  lemma NewUserIsBlank(id: int, openid: string, nickname: string)
    ensures NormalizeUser(Some(NewUserRow(id, openid, nickname)))
         == Some(User(id, openid, nickname, None, [], [], map[], false))
  {
  }

  /** The nickname update of `findOrCreate`: a given nickname that differs from
      the stored one replaces it. */
  function Renamed(row: UserRow, nickname: string): (r: UserRow)
    ensures nickname != "" ==> r == row.(nickname := nickname)
    ensures nickname == "" ==> r == row
  {
    if nickname != "" && row.nickname != nickname then row.(nickname := nickname) else row
  }

  /** The best-score update of `saveProgress`: a given score replaces the stored
      one when there is none or it is higher. No best score ever falls, and the
      other games' entries are untouched. */
  function RaiseMax(maxScore: map<string, int>, gameId: string, score: Option<int>): (r: map<string, int>)
    ensures forall g :: g in maxScore ==> g in r && r[g] >= maxScore[g]
    ensures forall g :: g != gameId ==> (g in r <==> g in maxScore)
    ensures forall g :: g != gameId && g in maxScore ==> r[g] == maxScore[g]
    ensures score.Some? ==> gameId in r && r[gameId] == (if gameId in maxScore then Max(maxScore[gameId], score.value) else score.value)
    ensures score.None? ==> r == maxScore
  {
    if score.Some? && (gameId !in maxScore || score.value > maxScore[gameId])
    then maxScore[gameId := score.value]
    else maxScore
  }

  /** Saving the same score twice changes nothing the second time. */
  lemma RaiseMaxIdempotent(maxScore: map<string, int>, gameId: string, score: Option<int>)
    ensures RaiseMax(RaiseMax(maxScore, gameId, score), gameId, score) == RaiseMax(maxScore, gameId, score)
  {
  }

  /** `score || 0`. */
  function ScoreOrZero(score: Option<int>): int
  {
    if score.Some? then score.value else 0
  }

  /** `if (!list.includes(id)) list.push(id)`: the id is in the list afterwards,
      appended only when it was absent. */
  function AddUnique(list: seq<string>, id: string): (r: seq<string>)
    ensures id in r && Elements(r) == Elements(list) + {id}
    ensures id in list ==> r == list
    ensures id !in list ==> r == list + [id]
  {
    if id in list then list else list + [id]
  }

  /** Unlocking never creates a duplicate, and unlocking twice is unlocking once. */
  lemma AddUniqueKeepsNoDup(list: seq<string>, id: string)
    requires NoDup(list)
    ensures NoDup(AddUnique(list, id))
    ensures AddUnique(AddUnique(list, id), id) == AddUnique(list, id)
  {
    if id !in list {
      var r := list + [id];
      forall i, j | 0 <= i < j < |r|
        ensures r[i] != r[j]
      {
        if j == |list| {
          assert r[i] == list[i];
          assert list[i] in list;
        }
      }
    }
  }

  /** The two user tables. */
  class UserStore {
    var users: map<string, UserRow>
    var progress: map<(string, string), ProgressRow>
    /** The next `id` the user table hands out. */
    var nextId: int

    /** Every row sits under its own `openid`. */
    ghost predicate Valid()
      reads this
    {
      forall k :: k in users ==> users[k].openid == k
    }

    constructor ()
      ensures Valid() && users == map[] && progress == map[] && nextId == 1
    {
      users := map[];
      progress := map[];
      nextId := 1;
    }

    /** `findOrCreate(openid, nickname)`, an empty nickname standing for an
        absent one: the stored user, renamed when a new nickname is given, or a
        blank new user, inserted and then read back. */
    method FindOrCreate(openid: string, nickname: string) returns (u: User)
      requires Valid()
      modifies this
      ensures Valid() && progress == old(progress)
      ensures openid in old(users) ==>
                users == old(users)[openid := Renamed(old(users)[openid], nickname)] && nextId == old(nextId)
      ensures openid !in old(users) ==>
                users == old(users)[openid := NewUserRow(old(nextId), openid, nickname)] && nextId == old(nextId) + 1
      ensures openid in users && Some(u) == NormalizeUser(Some(users[openid]))
      decreases if openid in users then 0 else 1
    {
      if openid in users {
        var row := users[openid];
        if nickname != "" && row.nickname != nickname {
          row := row.(nickname := nickname);
          users := users[openid := row];
        }
        u := NormalizeUser(Some(row)).value;
        return;
      }
      users := users[openid := NewUserRow(nextId, openid, nickname)];
      nextId := nextId + 1;
      u := FindOrCreate(openid, nickname);
    }

    /** `saveProgress(openid, gameId, level, score)`: raise the best score of the
        game, write the decoded unlock list back, and record the level and score
        (0 when absent) as the player's progress in the game. */
    method SaveProgress(openid: string, gameId: string, level: int, score: Option<int>)
      requires Valid()
      modifies this
      ensures Valid() && openid in users
      ensures progress == old(progress)[(openid, gameId) := ProgressRow(level, ScoreOrZero(score))]
      ensures nextId == if openid in old(users) then old(nextId) else old(nextId) + 1
      ensures var row := if openid in old(users) then old(users)[openid] else NewUserRow(old(nextId), openid, "");
              var before := NormalizeUser(Some(row)).value;
              users == old(users)[openid := row.(unlockGame := Text(before.unlockGame),
                                                 maxScore := Text(RaiseMax(before.maxScore, gameId, score)))]
    {
      var user := FindOrCreate(openid, "");
      var maxScore := RaiseMax(user.maxScore, gameId, score);
      users := users[openid := users[openid].(unlockGame := Text(user.unlockGame), maxScore := Text(maxScore))];
      progress := progress[(openid, gameId) := ProgressRow(level, ScoreOrZero(score))];
    }

    /** `unlockGame(openid, gameId, type)`: a theme goes into the theme list and
        anything else into the game list, each only once; both lists are written
        back and returned. */
    method UnlockGame(openid: string, gameId: string, kind: string) returns (games: seq<string>, themes: seq<string>)
      requires Valid()
      modifies this
      ensures Valid() && progress == old(progress) && openid in users
      ensures nextId == if openid in old(users) then old(nextId) else old(nextId) + 1
      ensures var row := if openid in old(users) then old(users)[openid] else NewUserRow(old(nextId), openid, "");
              var before := NormalizeUser(Some(row)).value;
              && games == (if kind == "theme" then before.unlockGame else AddUnique(before.unlockGame, gameId))
              && themes == (if kind == "theme" then AddUnique(before.unlockTheme, gameId) else before.unlockTheme)
              && users == old(users)[openid := row.(unlockGame := Text(games), unlockTheme := Text(themes))]
    {
      var user := FindOrCreate(openid, "");
      games, themes := user.unlockGame, user.unlockTheme;
      if kind == "theme" {
        themes := AddUnique(themes, gameId);
      } else {
        games := AddUnique(games, gameId);
      }
      users := users[openid := users[openid].(unlockGame := Text(games), unlockTheme := Text(themes))];
    }

    /** `unlockHidden(openid)`: always reports the hidden game unlocked, and sets
        the flag of a stored player whose flag is not already 1. */
    method UnlockHidden(openid: string) returns (hidden: bool)
      requires Valid()
      modifies this`users
      ensures Valid() && hidden
      ensures openid in old(users) ==> users == old(users)[openid := old(users)[openid].(hiddenUnlock := 1)]
      ensures openid !in old(users) ==> users == old(users)
    {
      var already := openid in users && users[openid].hiddenUnlock == 1;
      if !already && openid in users {
        users := users[openid := users[openid].(hiddenUnlock := 1)];
      }
      hidden := true;
    }
  }
}

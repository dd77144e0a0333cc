/** The client's request layer (api.js): the request signature, the decision
    taken on each reply (resolve, retry after a delay, or reject), and the
    parameters of the level request. `wx.request` and the timers are not
    modelled: the replies of successive attempts are an input. */
module Api {
  import opened Common

  const MaxRetry: nat := 3

  // ---------------------------------------------------------------------------
  // The signature (`simpleSign`)
  // ---------------------------------------------------------------------------

  const TwoTo32: int := 0x1_0000_0000
  const TwoTo31: int := 0x8000_0000

  /** `ToInt32`: the integer congruent to `x` modulo 2^32 in [-2^31, 2^31). */
  function ToInt32(x: int): (r: int)
    ensures -TwoTo31 <= r < TwoTo31
    ensures (x - r) % TwoTo32 == 0
  {
    var m := x % TwoTo32;
    if m >= TwoTo31 then m - TwoTo32 else m
  }

  /** Two numbers congruent modulo 2^32 have the same `ToInt32`. */
  lemma ToInt32Congruent(x: int, y: int)
    requires (x - y) % TwoTo32 == 0
    ensures ToInt32(x) == ToInt32(y)
  {
    var k := (x - y) / TwoTo32;
    assert x == y + k * TwoTo32;
    assert x % TwoTo32 == y % TwoTo32 by {
      ModShift(y, k);
    }
  }

  lemma ModShift(y: int, k: int)
    ensures (y + k * TwoTo32) % TwoTo32 == y % TwoTo32
  {
  }

  /** `s.charCodeAt(i)` for every `i`: a character above U+FFFF is two UTF-16
      code units, a surrogate pair. */
  function CodeUnits(s: string): (u: seq<int>)
    ensures forall k :: 0 <= k < |u| ==> 0 <= u[k] < 0x1_0000
    ensures |u| >= |s|
  {
    if s == [] then []
    else
      var c := s[0] as int;
      var head := if c < 0x1_0000 then [c]
                  else [0xD800 + (c - 0x1_0000) / 0x400, 0xDC00 + (c - 0x1_0000) % 0x400];
      head + CodeUnits(s[1..])
  }

  /** One step of the hash loop as written: `((hash << 5) - hash) + c`, then
      `hash & hash`. The shift works on the 32-bit value and the `&` brings the
      sum back to 32 bits. */
  function HashStep(hash: int, c: int): int
  {
    ToInt32(ToInt32(hash * 32) - hash + c)
  }

  /** The step is `ToInt32(31 * hash + c)`. */
  lemma HashStepIs31(hash: int, c: int)
    ensures HashStep(hash, c) == ToInt32(31 * hash + c)
  {
    var a := ToInt32(hash * 32);
    assert (hash * 32 - a) % TwoTo32 == 0;
    assert (a - hash + c) - (31 * hash + c) == -(hash * 32 - a);
    NegatedMultiple(hash * 32 - a);
    ToInt32Congruent(a - hash + c, 31 * hash + c);
  }

  lemma NegatedMultiple(d: int)
    requires d % TwoTo32 == 0
    ensures (-d) % TwoTo32 == 0
  {
    var k := d / TwoTo32;
    assert d == k * TwoTo32;
    assert -d == (-k) * TwoTo32;
  }

  /** The hash of a sequence of code units. */
  function Hash(units: seq<int>): (h: int)
    ensures -TwoTo31 <= h < TwoTo31
  {
    if units == [] then 0 else HashStep(Hash(units[..|units| - 1]), units[|units| - 1])
  }

  function Abs(x: int): nat { if x < 0 then -x else x }

  /** `simpleSign(str)` for the string the signature covers. */
  method SimpleSign(str: string) returns (sign: string)
    ensures sign == NatToString(Abs(Hash(CodeUnits(str))))
  {
    var units := CodeUnits(str);
    var hash := 0;
    var i := 0;
    while i < |units|
      invariant 0 <= i <= |units|
      invariant hash == Hash(units[..i])
    {
      var c := units[i];
      hash := ToInt32(hash * 32) - hash + c;
      hash := ToInt32(hash);
      assert units[..i + 1][..i] == units[..i];
      i := i + 1;
    }
    assert units[..i] == units;
    sign := NatToString(Abs(hash));
  }

  /** Every signature is the decimal form of a number in [0, 2^31], and the
      empty string signs as "0". */
  lemma SignRange(str: string)
    ensures 0 <= Abs(Hash(CodeUnits(str))) <= TwoTo31
    ensures NatToString(Abs(Hash(CodeUnits("")))) == "0"
  {
  }

  /** What a request signs: the URL of a `GET`, otherwise the serialized body
      (`stringify` stands for `JSON.stringify`, `data || {}` having been applied). */
  function SignedText(httpMethod: string, url: string, data: Json, stringify: Json -> string): (s: string)
    ensures httpMethod == "GET" ==> s == url
    ensures httpMethod != "GET" ==> s == stringify(data)
  {
    if httpMethod == "GET" then url else stringify(data)
  }

  /** `(options.method || 'GET').toUpperCase()` for ASCII method names. */
  function RequestMethod(httpMethod: string): (m: string)
    ensures httpMethod == "" ==> m == "GET"
    ensures |httpMethod| > 0 ==> |m| == |httpMethod|
    ensures forall k :: 0 <= k < |m| ==> !('a' <= m[k] <= 'z')
  {
    if httpMethod == "" then "GET" else UpperAscii(httpMethod)
  }

  function UpperAscii(s: string): (t: string)
    ensures |t| == |s|
    ensures forall k :: 0 <= k < |t| ==> !('a' <= t[k] <= 'z')
    ensures forall k :: 0 <= k < |t| && !('a' <= s[k] <= 'z') ==> t[k] == s[k]
  {
    if s == [] then []
    else
      var c := s[0];
      [if 'a' <= c <= 'z' then (c as int - 32) as char else c] + UpperAscii(s[1..])
  }

  // ---------------------------------------------------------------------------
  // The reply (`request`)
  // ---------------------------------------------------------------------------

  /** What `wx.request` reports: a reply with a status and a body (`success`), or
      a failure with its `errMsg` (`fail`; empty when absent). */
  datatype Reply = Status(code: int, body: Json) | Fail(errMsg: string)

  /** What the promise does with a reply. `Reject` carries the error's message,
      or, for a failure, the failure itself. */
  datatype Decision =
    | Resolve(data: Json)
    | Retry(delayMs: nat)
    | Reject(message: Json)
    | RejectFailure(errMsg: string)

  /** `(res.data && res.data.msg) || ('HTTP ' + code)`. */
  function ErrorMessage(body: Json, code: int): Json
  {
    if Truthy(body) && body.JObj? && "msg" in body.fields && Truthy(body.fields["msg"])
    then body.fields["msg"]
    else JStr("HTTP " + IntToString(code))
  }

  /** The `success` and `fail` callbacks of `request`, on attempt `retryCount`. */
  function Decide(reply: Reply, retryCount: nat): (d: Decision)
    ensures reply.Status? && 200 <= reply.code < 300 ==>
              d == Resolve(if Truthy(reply.body) then reply.body else JObj(map[]))
    ensures d.Retry? <==> (retryCount < MaxRetry &&
                          ((reply.Status? && !(200 <= reply.code < 300) && reply.code >= 500)
                           || (reply.Fail? && HasSubstring(reply.errMsg, "timeout"))))
    ensures d.Retry? ==> d.delayMs == 500 * (retryCount + 1)
    ensures reply.Status? && !(200 <= reply.code < 300) && !d.Retry? ==> d == Reject(ErrorMessage(reply.body, reply.code))
    ensures reply.Fail? && !d.Retry? ==> d == RejectFailure(reply.errMsg)
  {
    match reply
    case Status(code, body) =>
      if 200 <= code < 300 then Resolve(if Truthy(body) then body else JObj(map[]))
      else if retryCount < MaxRetry && code >= 500 then Retry(500 * (retryCount + 1))
      else Reject(ErrorMessage(body, code))
    case Fail(errMsg) =>
      if retryCount < MaxRetry && HasSubstring(errMsg, "timeout") then Retry(500 * (retryCount + 1))
      else RejectFailure(errMsg)
  }

  /** How a request ends: the settling decision, the number of attempts made and
      the total of the delays waited between them. */
  datatype Outcome = Outcome(decision: Decision, attempts: nat, waitedMs: nat)

  /** The whole retry chain from attempt `retryCount`, where `replies(k)` is the
      reply to attempt `k`. */
  function RunRequest(replies: nat -> Reply, retryCount: nat): (o: Outcome)
    requires retryCount <= MaxRetry
    ensures !o.decision.Retry?
    ensures 1 <= o.attempts <= MaxRetry + 1 - retryCount
    decreases MaxRetry - retryCount
  {
    var d := Decide(replies(retryCount), retryCount);
    if d.Retry? then
      var rest := RunRequest(replies, retryCount + 1);
      Outcome(rest.decision, rest.attempts + 1, d.delayMs + rest.waitedMs)
    else Outcome(d, 1, 0)
  }

  /** A request makes at most four attempts; a server that keeps failing with
      5xx is retried after 500, 1000 and 1500 ms and then rejected. */
  lemma PersistentServerError(replies: nat -> Reply)
    requires forall k :: replies(k) == Status(503, JNull)
    ensures RunRequest(replies, 0) == Outcome(Reject(JStr("HTTP 503")), 4, 3000)
  {
    var message := Reject(JStr("HTTP 503"));
    assert IntToString(503) == "503" by {
      assert NatToString(503) == NatToString(50) + [DigitChar(3)];
      assert NatToString(50) == NatToString(5) + [DigitChar(0)];
    }
    assert "HTTP " + IntToString(503) == "HTTP 503";
    assert ErrorMessage(replies(3).body, replies(3).code) == JStr("HTTP 503");
    assert RunRequest(replies, 3) == Outcome(message, 1, 0);
    assert RunRequest(replies, 2) == Outcome(message, 2, 1500);
    assert RunRequest(replies, 1) == Outcome(message, 3, 2500);
  }

  /** A first reply in the 2xx range settles at once. */
  lemma SuccessSettlesAtOnce(replies: nat -> Reply)
    requires replies(0).Status? && 200 <= replies(0).code < 300
    ensures RunRequest(replies, 0).attempts == 1 && RunRequest(replies, 0).decision.Resolve?
  {
  }

  // ---------------------------------------------------------------------------
  // The level request (`getLevelData`)
  // ---------------------------------------------------------------------------

  /** The query of `getLevelData`: every argument as given, with `resetProgress`
      sent as '1' when true and '0' otherwise. */
  function LevelDataQuery(gameId: string, difficulty: string, level: int, openid: string,
                          themeId: Json, resetProgress: bool): (q: map<string, Json>)
    ensures q.Keys == {"gameId", "difficulty", "level", "openid", "themeId", "resetProgress"}
    ensures q["resetProgress"] == JStr(if resetProgress then "1" else "0")
    ensures q["gameId"] == JStr(gameId) && q["difficulty"] == JStr(difficulty)
    ensures q["level"] == JNum(level as real) && q["openid"] == JStr(openid) && q["themeId"] == themeId
  {
    map["gameId" := JStr(gameId), "difficulty" := JStr(difficulty), "level" := JNum(level as real),
        "openid" := JStr(openid), "themeId" := themeId,
        "resetProgress" := JStr(if resetProgress then "1" else "0")]
  }

  const LevelDataPath := "/api/level/getLevelData"

  /** The level request is a `GET`, so its signature covers the path and not
      the query: two level requests carry the same signature. */
  lemma LevelRequestSignsPath(stringify: Json -> string)
    ensures SignedText(RequestMethod("GET"), LevelDataPath, JNull, stringify) == LevelDataPath
  {
    assert UpperAscii("GET") == "GET";
  }
}

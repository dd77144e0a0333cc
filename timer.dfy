/** The countdown used by every puzzle page, and the client's time-limit table.
    The wall clock and the frame scheduler are inputs: every call that reads
    `Date.now()` takes the time `now` in milliseconds, and every call that asks
    `requestAnimationFrame` or `setInterval` for a callback takes the handle the
    scheduler hands back. The two callbacks become the outcome a tick reports. */
module Timer {
  import opened Common

  // ---------------------------------------------------------------------------
  // Time limits (`getTimeLimit`)
  // ---------------------------------------------------------------------------

  /** Seconds per game and difficulty. Only the spot-the-difference game has a hell entry. */
  const TimeConfig: map<string, map<string, int>> := map[
    "wordFind" := map["easy" := 20, "normal" := 30, "hard" := 40],
    "charDiff" := map["easy" := 5, "normal" := 10, "hard" := 15, "hell" := 20],
    "poetryConnect" := map["easy" := 30, "normal" := 45, "hard" := 70]
  ]

  /** `cfg[key]` read as a JavaScript number whose absence and zero are both falsy. */
  function Entry(cfg: map<string, int>, key: string): Option<int>
  {
    if key in cfg && cfg[key] != 0 then Some(cfg[key]) else None
  }

  /** Seconds allowed for a game at a difficulty, with the fallbacks of the client. */
  function GetTimeLimit(gameId: string, difficulty: string): (t: int)
    ensures gameId !in TimeConfig ==> t == 30
    ensures gameId in TimeConfig && difficulty in TimeConfig[gameId] ==> t == TimeConfig[gameId][difficulty]
    ensures gameId in TimeConfig && difficulty !in TimeConfig[gameId] ==> t == TimeConfig[gameId]["normal"]
    ensures t > 0
  {
    if gameId !in TimeConfig then 30
    else
      var cfg := TimeConfig[gameId];
      if difficulty == "hell" && Entry(cfg, "hell").Some? then Entry(cfg, "hell").value
      else if Entry(cfg, difficulty).Some? then Entry(cfg, difficulty).value
      else if Entry(cfg, "normal").Some? then Entry(cfg, "normal").value
      else 30
  }

  /** Hell falls back to the normal entry wherever the table has no hell entry,
      and every configured game gives more time as the difficulty rises. */
  lemma TimeLimitTable()
    ensures GetTimeLimit("wordFind", "hell") == 30
    ensures GetTimeLimit("poetryConnect", "hell") == 45
    ensures GetTimeLimit("charDiff", "hell") == 20
    ensures forall g :: g in TimeConfig ==>
              GetTimeLimit(g, "easy") < GetTimeLimit(g, "normal") < GetTimeLimit(g, "hard")
  {
    assert TimeConfig.Keys == {"wordFind", "charDiff", "poetryConnect"};
  }

  // ---------------------------------------------------------------------------
  // The countdown (`GameTimer`)
  // ---------------------------------------------------------------------------

  /** What the host offers: `requestAnimationFrame` (otherwise a 16 ms interval
      drives the ticks) and `cancelAnimationFrame`. */
  datatype Host = Host(animationFrame: bool, cancelAnimationFrame: bool)

  /** The fields of a timer: `_running`, `_startMs`, `_rafId` and `_intervalId`
      beside `total` and `remaining` (seconds). */
  datatype TimerState = TimerState(
    total: real,
    remaining: real,
    running: bool,
    startMs: real,
    rafId: Option<int>,
    intervalId: Option<int>)

  /** What one tick did: returned at once (`Idle`), reported a frame, or reported
      a frame and then fired the timeout callback. */
  datatype TickOutcome = Idle | Frame | FrameThenTimeout

  /** A freshly constructed timer. */
  function NewTimer(total: real): (s: TimerState)
    ensures s.remaining == s.total == total
    ensures !s.running && s.rafId.None? && s.intervalId.None?
  {
    TimerState(total, total, false, 0.0, None, None)
  }

  /** `start`: a running timer ignores it; otherwise the start reference becomes `now`
      and one scheduler handle is taken. */
  function StartStep(s: TimerState, host: Host, now: int, handle: int): (t: TimerState)
    ensures s.running ==> t == s
    ensures !s.running ==> t.running && t.startMs == now as real
    ensures t.total == s.total && t.remaining == s.remaining
    ensures !s.running ==> (if host.animationFrame then t.rafId == Some(handle) && t.intervalId == s.intervalId
                            else t.intervalId == Some(handle) && t.rafId == s.rafId)
  {
    if s.running then s
    else if host.animationFrame then s.(running := true, startMs := now as real, rafId := Some(handle))
    else s.(running := true, startMs := now as real, intervalId := Some(handle))
  }

  /** `stop`: the timer stops; the interval is cleared, the frame request only when
      the host can cancel it. */
  function StopStep(s: TimerState, host: Host): (t: TimerState)
    ensures !t.running && t.intervalId.None?
    ensures t.total == s.total && t.remaining == s.remaining && t.startMs == s.startMs
    ensures t.rafId == (if host.cancelAnimationFrame then None else s.rafId)
  {
    s.(running := false,
       rafId := if s.rafId.Some? && host.cancelAnimationFrame then None else s.rafId,
       intervalId := None)
  }

  /** Seconds left at `now` before the clamp at zero. */
  function Unclamped(s: TimerState, now: int): real
  {
    s.total - (now as real - s.startMs) / 1000.0
  }

  /** One scheduled callback: the new state and what the callbacks saw. */
  function TickStep(s: TimerState, host: Host, now: int, handle: int): (r: (TimerState, TickOutcome))
    ensures !s.running ==> r == (s, Idle)
    ensures s.running && Unclamped(s, now) <= 0.0 ==>
              r.1 == FrameThenTimeout && r.0 == StopStep(s.(remaining := 0.0), host)
    ensures s.running && Unclamped(s, now) > 0.0 ==>
              r.1 == Frame && r.0.running && r.0.remaining == Unclamped(s, now) &&
              r.0.startMs == s.startMs && r.0.total == s.total
    ensures r.0.remaining >= 0.0 || r.0.remaining == s.remaining
  {
    if !s.running then (s, Idle)
    else
      var left := if Unclamped(s, now) > 0.0 then Unclamped(s, now) else 0.0;
      var framed := s.(remaining := left);
      if left <= 0.0 then (StopStep(framed.(remaining := 0.0), host), FrameThenTimeout)
      else if host.animationFrame then (framed.(rafId := Some(handle)), Frame)
      else (framed, Frame)
  }

  /** `addTime`: the start reference moves forward by the added milliseconds and
      `remaining` grows, but only up to `total`. */
  function AddTimeStep(s: TimerState, seconds: real): (t: TimerState)
    ensures t.startMs == s.startMs + seconds * 1000.0
    ensures t.remaining <= t.total == s.total
    ensures s.remaining + seconds <= s.total ==> t.remaining == s.remaining + seconds
    ensures t.running == s.running && t.rafId == s.rafId && t.intervalId == s.intervalId
  {
    s.(startMs := s.startMs + seconds * 1000.0,
       remaining := if s.total <= s.remaining + seconds then s.total else s.remaining + seconds)
  }

  /** `getRemainingSec`: whole seconds shown, rounded up. */
  function RemainingSec(s: TimerState): (n: int)
    ensures (n - 1) as real < s.remaining <= n as real
  {
    Ceil(s.remaining)
  }

  /** `getPercent`: the remaining fraction, 0 for a non-positive total. */
  function Percent(s: TimerState): (p: real)
    ensures s.total <= 0.0 ==> p == 0.0
    ensures s.total > 0.0 ==> p * s.total == s.remaining
  {
    if s.total <= 0.0 then 0.0 else s.remaining / s.total
  }

  /** The ticks of one run, applied in order. */
  function RunTicks(s: TimerState, host: Host, nows: seq<int>, handles: seq<int>): (r: (TimerState, nat))
    requires |handles| == |nows|
    decreases |nows|
  {
    if nows == [] then (s, 0)
    else
      var step := TickStep(s, host, nows[0], handles[0]);
      var rest := RunTicks(step.0, host, nows[1..], handles[1..]);
      (rest.0, rest.1 + (if step.1 == FrameThenTimeout then 1 else 0))
  }

  /** A stopped timer ignores every later tick. */
  lemma {:induction false} StoppedIgnoresTicks(s: TimerState, host: Host, nows: seq<int>, handles: seq<int>)
    requires |handles| == |nows| && !s.running
    ensures RunTicks(s, host, nows, handles) == (s, 0)
    decreases |nows|
  {
    if nows != [] {
      StoppedIgnoresTicks(s, host, nows[1..], handles[1..]);
    }
  }

  /** Whatever the clock does, the timeout callback fires at most once per run,
      and after it fired the timer is stopped at zero. */
  lemma {:induction false} TimeoutFiresOnce(s: TimerState, host: Host, nows: seq<int>, handles: seq<int>)
    requires |handles| == |nows|
    ensures RunTicks(s, host, nows, handles).1 <= 1
    ensures RunTicks(s, host, nows, handles).1 == 1 ==>
              !RunTicks(s, host, nows, handles).0.running && RunTicks(s, host, nows, handles).0.remaining == 0.0
    decreases |nows|
  {
    if nows != [] {
      var step := TickStep(s, host, nows[0], handles[0]);
      if step.1 == FrameThenTimeout {
        StoppedIgnoresTicks(step.0, host, nows[1..], handles[1..]);
      } else {
        TimeoutFiresOnce(step.0, host, nows[1..], handles[1..]);
      }
    }
  }

  /** While the clock does not run backwards, each tick of a running timer shows
      no more time than the one before. */
  lemma TicksCountDown(s: TimerState, host: Host, t1: int, t2: int, h1: int, h2: int)
    requires s.running && t1 <= t2
    ensures TickStep(TickStep(s, host, t1, h1).0, host, t2, h2).0.remaining <= TickStep(s, host, t1, h1).0.remaining
  {
    assert Unclamped(s, t2) <= Unclamped(s, t1);
  }

  /** `addTime` caps `remaining` at `total`, yet a tick right after it is not capped:
      extra seconds beyond the elapsed time show as more than the full budget. */
  lemma AddTimeThenTickExceedsTotal(s: TimerState, host: Host, seconds: real, now: int, handle: int)
    requires s.running && s.startMs == now as real && s.total >= 0.0 && seconds > 0.0
    ensures TickStep(AddTimeStep(s, seconds), host, now, handle).0.remaining == s.total + seconds
    ensures s.total > 0.0 ==> Percent(TickStep(AddTimeStep(s, seconds), host, now, handle).0) > 1.0
  {
    var t := AddTimeStep(s, seconds);
    assert Unclamped(t, now) == s.total + seconds;
    var u := TickStep(t, host, now, handle).0;
    assert u.total == s.total && u.remaining == s.total + seconds;
    if s.total > 0.0 {
      assert s.total / s.total == 1.0;
      assert (s.total + seconds) / s.total == s.total / s.total + seconds / s.total;
      assert seconds / s.total > 0.0;
    }
  }

  /** The timer object. Its fields are the state above; each method moves them by
      the matching step function. */
  class GameTimer {
    const host: Host
    var total: real
    var remaining: real
    var running: bool
    var startMs: real
    var rafId: Option<int>
    var intervalId: Option<int>

    function State(): TimerState
      reads this
    {
      TimerState(total, remaining, running, startMs, rafId, intervalId)
    }

    constructor (totalSeconds: real, host: Host)
      ensures State() == NewTimer(totalSeconds) && this.host == host
    {
      this.host := host;
      total := totalSeconds;
      remaining := totalSeconds;
      running := false;
      startMs := 0.0;
      rafId := None;
      intervalId := None;
    }

    method Start(now: int, handle: int)
      modifies this
      ensures State() == StartStep(old(State()), host, now, handle)
    {
      if running {
        return;
      }
      running := true;
      startMs := now as real;
      if host.animationFrame {
        rafId := Some(handle);
      } else {
        intervalId := Some(handle);
      }
    }

    method Stop()
      modifies this
      ensures State() == StopStep(old(State()), host)
    {
      running := false;
      if rafId != None && host.cancelAnimationFrame {
        rafId := None;
      }
      if intervalId != None {
        intervalId := None;
      }
    }

    /** The scheduled callback `tick`. */
    method Tick(now: int, handle: int) returns (outcome: TickOutcome)
      modifies this
      ensures (State(), outcome) == TickStep(old(State()), host, now, handle)
    {
      if !running {
        return Idle;
      }
      var elapsed := (now as real - startMs) / 1000.0;
      remaining := if total - elapsed > 0.0 then total - elapsed else 0.0;
      if remaining <= 0.0 {
        remaining := 0.0;
        Stop();
        return FrameThenTimeout;
      }
      if host.animationFrame {
        rafId := Some(handle);
      }
      return Frame;
    }

    method AddTime(seconds: real)
      modifies this
      ensures State() == AddTimeStep(old(State()), seconds)
    {
      startMs := startMs + seconds * 1000.0;
      remaining := if total <= remaining + seconds then total else remaining + seconds;
    }

    method GetRemainingSec() returns (n: int)
      ensures n == RemainingSec(State())
    {
      n := Ceil(remaining);
    }

    method GetPercent() returns (p: real)
      ensures p == Percent(State())
    {
      if total <= 0.0 {
        return 0.0;
      }
      p := remaining / total;
    }
  }
}

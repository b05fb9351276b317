/** Durable timers: the next deadline of a fixed-rate or fixed-delay timer, with
    64-bit duration arithmetic written out, and the deadlines of a whole run. */
module Timer {
  import opened Basics
  import opened Cells

  // ----- Durations -----

  const MAX_DURATION: int := 0x7fff_ffff_ffff_ffff
  const MIN_DURATION: int := -0x8000_0000_0000_0000

  /** The difference of two times saturates. */
  function Saturate(x: int): int {
    if x > MAX_DURATION then MAX_DURATION else if x < MIN_DURATION then MIN_DURATION else x
  }

  /** Products and sums of durations wrap around. */
  function Wrap(x: int): int {
    (x - MIN_DURATION) % 0x1_0000_0000_0000_0000 + MIN_DURATION
  }

  /** Go's integer division truncates toward zero. */
  function Truncate(x: int, y: int): int
    requires y > 0
  {
    if x >= 0 then x / y else -((-x) / y)
  }

  predicate ValidInterval(interval: int) { 0 < interval <= MAX_DURATION }

  function NextDeadline(previous: Time, now: Time, interval: int): Time
    requires ValidInterval(interval)
  {
    var next := previous + interval;
    if next > now then next
    else
      var missed := Wrap(Truncate(Saturate(now - previous), interval) + 1);
      previous + Wrap(missed * interval)
  }

  // ----- What the next deadline should be -----

  predicate Tick(previous: Time, interval: int, k: int, t: Time) { k >= 1 && t == previous + k * interval }

  /** `t` is the least tick after `previous` that lies strictly after `now`. */
  ghost predicate IsNextTick(previous: Time, now: Time, interval: int, t: Time) {
    && t > now
    && (exists k :: Tick(previous, interval, k, t))
    && (forall k, u :: Tick(previous, interval, k, u) && u > now ==> t <= u)
  }

  /** The next tick lies within the largest duration of the previous deadline. */
  predicate InRange(previous: Time, now: Time, interval: int)
    requires ValidInterval(interval)
  {
    previous + interval > now || ((now - previous) / interval + 1) * interval <= MAX_DURATION
  }

  lemma Monotone(a: int, b: int, c: int)
    requires a <= b && c >= 0
    ensures a * c <= b * c
  {
  }

  lemma QuotientBounds(d: int, interval: int)
    requires interval > 0
    ensures d / interval * interval <= d < (d / interval + 1) * interval
    ensures (d / interval + 1) * interval == d / interval * interval + interval
  {
  }

  lemma WrapSmall(x: int)
    ensures MIN_DURATION <= x <= MAX_DURATION ==> Wrap(x) == x
    ensures MAX_DURATION < x <= 2 * MAX_DURATION ==> Wrap(x) < 0
  {
  }

  lemma NextTickOf(previous: Time, now: Time, interval: int)
    requires interval > 0 && previous + interval <= now
    ensures IsNextTick(previous, now, interval, previous + ((now - previous) / interval + 1) * interval)
  {
    var d := now - previous;
    var k := d / interval + 1;
    QuotientBounds(d, interval);
    assert k >= 1 by { if k < 1 { Monotone(k, 0, interval); } }
    assert Tick(previous, interval, k, previous + k * interval);
    forall j, u | Tick(previous, interval, j, u) && u > now ensures previous + k * interval <= u {
      if j < k {
        Monotone(j, d / interval, interval);
      } else {
        Monotone(k, j, interval);
      }
    }
  }

  lemma FirstTick(previous: Time, now: Time, interval: int)
    requires interval > 0 && previous + interval > now
    ensures IsNextTick(previous, now, interval, previous + interval)
  {
    assert Tick(previous, interval, 1, previous + interval);
    forall j, u | Tick(previous, interval, j, u) ensures previous + interval <= u { Monotone(1, j, interval); }
  }

  /** Small intervals and saturation: wrapping the increment first changes nothing. */
  lemma MissedTicks(previous: Time, now: Time, interval: int)
    requires ValidInterval(interval) && previous + interval <= now
    ensures var d := Saturate(now - previous);
      && NextDeadline(previous, now, interval) == previous + Wrap((d / interval + 1) * interval)
      && MIN_DURATION <= (d / interval + 1) * interval <= 2 * MAX_DURATION
  {
    var d := Saturate(now - previous);
    QuotientBounds(d, interval);
    assert d / interval >= 0;
    if interval == 1 {
      assert d / interval == d;
      WrapTwice(d + 1);
    } else {
      Monotone(2, interval, d / interval);
      assert d / interval * interval == interval * (d / interval);
      WrapSmall(d / interval + 1);
    }
  }

  lemma WrapTwice(x: int)
    ensures Wrap(Wrap(x) * 1) == Wrap(x)
  {
  }

  /** The computed deadline is the least tick after now exactly when that tick is
      in range; otherwise the multiplication wraps and the deadline moves back. */
  lemma NextDeadlineCorrect(previous: Time, now: Time, interval: int)
    requires ValidInterval(interval)
    ensures IsNextTick(previous, now, interval, NextDeadline(previous, now, interval)) <==> InRange(previous, now, interval)
    ensures !InRange(previous, now, interval) ==> NextDeadline(previous, now, interval) < previous
  {
    if previous + interval > now {
      FirstTick(previous, now, interval);
    } else {
      var d := Saturate(now - previous);
      var product := (d / interval + 1) * interval;
      MissedTicks(previous, now, interval);
      WrapSmall(product);
      QuotientBounds(d, interval);
      QuotientBounds(now - previous, interval);
      if InRange(previous, now, interval) {
        NextTickOf(previous, now, interval);
      } else {
        assert product > MAX_DURATION;
      }
    }
  }

  /** It is in range whenever the elapsed time plus one interval is. */
  lemma InRangeWhen(previous: Time, now: Time, interval: int)
    requires ValidInterval(interval) && now - previous + interval <= MAX_DURATION
    ensures InRange(previous, now, interval)
  {
    QuotientBounds(now - previous, interval);
  }

  /** A timer woken almost three centuries late is given a deadline before its previous one. */
  lemma OutOfRangeExample()
    ensures NextDeadline(0, MAX_DURATION, 3) < 0
    ensures !IsNextTick(0, MAX_DURATION, 3, NextDeadline(0, MAX_DURATION, 3))
  {
    assert !InRange(0, MAX_DURATION, 3);
    NextDeadlineCorrect(0, MAX_DURATION, 3);
  }

  // ----- Runs -----

  datatype TimerMode = FixedDelay | FixedRate

  datatype TimerConfig = TimerConfig(interval: int, mode: TimerMode)

  type TimerResult = Result<TimerConfig, ()>

  /** A callback error completes the timer; otherwise it is retried at its next deadline. */
  function Execute(config: TimerConfig, notBefore: Option<Time>, now: Time, callbackOk: bool): TimerResult
    requires ValidInterval(config.interval)
  {
    if !callbackOk then Complete([], [])
    else if config.mode == FixedRate && notBefore.Some? then
      Retry(Some(NextDeadline(notBefore.value, now, config.interval)), [], [])
    else Retry(Some(now + config.interval), [], [])
  }

  /** What can happen to a scheduled timer; a restart stands for a crash and recovery. */
  datatype Happening = Claims(at: Time) | Fires(at: Time, callbackOk: bool) | Restarts

  predicate IsTimer(cells: CellMap<TimerConfig>, id: CellId, config: TimerConfig) {
    && id in cells && cells[id].id == id && |cells[id].steps| == 1 && cells[id].steps[0].payload == config
    && cells[id].currentStep == 0 && cells[id].notBefore.Some?
  }

  predicate Possible(cells: CellMap<TimerConfig>, id: CellId, h: Happening) {
    id in cells && match h
      case Claims(at) => Runnable(cells[id], at)
      case Fires(_, _) => cells[id].state == Claimed
      case Restarts => true
  }

  function NoIds(): Allocator { (n: nat) => None }

  function Happens(cells: CellMap<TimerConfig>, id: CellId, config: TimerConfig, h: Happening): CellMap<TimerConfig>
    requires ValidInterval(config.interval) && IsTimer(cells, id, config) && Possible(cells, id, h)
  {
    match h
    case Claims(_) => Claim(cells, id)
    case Fires(at, ok) =>
      ApplyResult(cells, cells[id], Execute(config, cells[id].notBefore, at, ok), true, NoIds(), at).value
    case Restarts => Recover(cells)
  }

  /** Every happening is possible in turn, and only the last may end the timer. */
  ghost predicate IsHistory(cells: CellMap<TimerConfig>, id: CellId, config: TimerConfig, hs: seq<Happening>)
    requires ValidInterval(config.interval)
    decreases |hs|
  {
    hs == [] ||
    (&& IsTimer(cells, id, config) && Possible(cells, id, hs[0])
     && IsHistory(Happens(cells, id, config, hs[0]), id, config, hs[1..]))
  }

  /** The deadlines set in the course of a history. */
  ghost function Deadlines(cells: CellMap<TimerConfig>, id: CellId, config: TimerConfig, hs: seq<Happening>): seq<Time>
    requires ValidInterval(config.interval) && IsHistory(cells, id, config, hs)
    decreases |hs|
  {
    if hs == [] then []
    else
      var next := Happens(cells, id, config, hs[0]);
      (if hs[0].Fires? && id in next && next[id].notBefore.Some? then [next[id].notBefore.value] else [])
      + Deadlines(next, id, config, hs[1..])
  }

  /** One happening: only a successful firing moves the deadline, at a fixed rate to the
      computed next one and with a fixed delay to one interval after the firing. */
  lemma HappensTo(cells: CellMap<TimerConfig>, id: CellId, config: TimerConfig, h: Happening)
    requires ValidInterval(config.interval) && IsTimer(cells, id, config) && Possible(cells, id, h)
    ensures var next := Happens(cells, id, config, h);
      && (id in next <==> !(h.Fires? && !h.callbackOk))
      && (id in next ==> IsTimer(next, id, config))
      && (id in next && !h.Fires? ==> next[id].notBefore == cells[id].notBefore)
      && (id in next && h.Fires? && config.mode == FixedRate ==>
            next[id].notBefore == Some(NextDeadline(cells[id].notBefore.value, h.at, config.interval)))
      && (id in next && h.Fires? && config.mode == FixedDelay ==> next[id].notBefore == Some(h.at + config.interval))
      && (id in next ==> next[id].state == if h.Claims? then Claimed else Ready)
  {
  }

  predicate OnGrid(first: Time, interval: int, t: Time)
    requires interval > 0
  {
    (t - first) % interval == 0
  }

  lemma TickOnGrid(first: Time, interval: int, t: Time, k: int, u: Time)
    requires interval > 0 && OnGrid(first, interval, t) && Tick(t, interval, k, u)
    ensures OnGrid(first, interval, u) && u > t
  {
    var m := (t - first) / interval;
    assert t == first + m * interval;
    assert u - first == (m + k) * interval + 0 by { assert (m + k) * interval == m * interval + k * interval; }
    Multiples(m + k, interval);
    Monotone(1, k, interval);
  }

  lemma {:induction false} Multiples(m: int, interval: int)
    requires interval > 0
    ensures m * interval % interval == 0
  {
    QuotientBounds(m * interval, interval);
    var q := m * interval / interval;
    if q < m {
      Monotone(q + 1, m, interval);
    } else if q > m {
      Monotone(m + 1, q, interval);
    }
  }

  /** Strictly increasing grid points, all after `above`. */
  ghost predicate Ascend(first: Time, interval: int, above: Time, ds: seq<Time>)
    requires interval > 0
  {
    && (forall i :: 0 <= i < |ds| ==> OnGrid(first, interval, ds[i]) && ds[i] > above)
    && (forall i, j :: 0 <= i < j < |ds| ==> ds[i] < ds[j])
  }

  lemma AscendFrom(first: Time, interval: int, above: Time, u: Time, rest: seq<Time>)
    requires interval > 0
    ensures Ascend(first, interval, above, [u] + rest)
      <==> OnGrid(first, interval, u) && u > above && Ascend(first, interval, u, rest)
  {
    var ds := [u] + rest;
    if Ascend(first, interval, above, ds) {
      assert ds[0] == u;
      forall i | 0 <= i < |rest| ensures OnGrid(first, interval, rest[i]) && rest[i] > u { assert rest[i] == ds[i + 1]; }
      forall i, j | 0 <= i < j < |rest| ensures rest[i] < rest[j] { assert rest[i] == ds[i + 1] && rest[j] == ds[j + 1]; }
    }
  }

  lemma FiringTicks(cells: CellMap<TimerConfig>, id: CellId, config: TimerConfig, h: Happening, first: Time)
    requires ValidInterval(config.interval) && config.mode == FixedRate && IsTimer(cells, id, config)
    requires Possible(cells, id, h) && h.Fires? && h.callbackOk
    requires InRange(cells[id].notBefore.value, h.at, config.interval)
    requires OnGrid(first, config.interval, cells[id].notBefore.value)
    ensures var next := Happens(cells, id, config, h);
      && IsTimer(next, id, config) && OnGrid(first, config.interval, next[id].notBefore.value)
      && next[id].notBefore.value > cells[id].notBefore.value && next[id].notBefore.value > h.at
  {
    var previous := cells[id].notBefore.value;
    HappensTo(cells, id, config, h);
    NextDeadlineCorrect(previous, h.at, config.interval);
    var u := NextDeadline(previous, h.at, config.interval);
    var k :| Tick(previous, config.interval, k, u);
    TickOnGrid(first, config.interval, previous, k, u);
  }

  /** Every firing that sets a deadline is in range. */
  ghost predicate AlwaysInRange(cells: CellMap<TimerConfig>, id: CellId, config: TimerConfig, hs: seq<Happening>)
    requires ValidInterval(config.interval) && IsHistory(cells, id, config, hs)
    decreases |hs|
  {
    hs == [] ||
    (&& (hs[0].Fires? && hs[0].callbackOk ==> InRange(cells[id].notBefore.value, hs[0].at, config.interval))
     && AlwaysInRange(Happens(cells, id, config, hs[0]), id, config, hs[1..]))
  }

  /** In a history of a fixed-rate timer, with restarts anywhere, the deadlines lie
      on the grid of the first one and strictly increase exactly when every firing
      is in range. */
  lemma {:induction false} DeadlinesOnGrid(
    cells: CellMap<TimerConfig>, id: CellId, config: TimerConfig, hs: seq<Happening>, first: Time)
    requires ValidInterval(config.interval) && config.mode == FixedRate && IsTimer(cells, id, config)
    requires IsHistory(cells, id, config, hs) && OnGrid(first, config.interval, cells[id].notBefore.value)
    ensures Ascend(first, config.interval, cells[id].notBefore.value, Deadlines(cells, id, config, hs))
      <==> AlwaysInRange(cells, id, config, hs)
    decreases |hs|
  {
    if hs != [] {
      var next, previous := Happens(cells, id, config, hs[0]), cells[id].notBefore.value;
      HappensTo(cells, id, config, hs[0]);
      if id !in next {
        assert hs[1..] == [];
        assert Deadlines(cells, id, config, hs) == [];
      } else {
        var rest := Deadlines(next, id, config, hs[1..]);
        if hs[0].Fires? {
          assert Deadlines(cells, id, config, hs) == [next[id].notBefore.value] + rest;
          AscendFrom(first, config.interval, previous, next[id].notBefore.value, rest);
          if InRange(previous, hs[0].at, config.interval) {
            FiringTicks(cells, id, config, hs[0], first);
            DeadlinesOnGrid(next, id, config, hs[1..], first);
          } else {
            NextDeadlineCorrect(previous, hs[0].at, config.interval);
          }
        } else {
          DeadlinesOnGrid(next, id, config, hs[1..], first);
          assert Deadlines(cells, id, config, hs) == [] + rest == rest;
        }
      }
    }
  }
}

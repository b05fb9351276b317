/** What holds in every run of the queue runner: no event is lost or duplicated,
    counters mean what they say, and the runner stops exactly when it should. */
module QueueRuns {
  import opened Agenda
  import opened QueueRunner

  /** Events arrive, due retries are re-queued, and the head of the queue is
      dispatched, in any order and at any times. */
  datatype Step = Put(event: Event) | Requeue(now: real) | Take(verdict: Verdict, now: real)

  datatype Handled = Handled(event: Event, verdict: Verdict)

  /** The runner with what has happened to it so far. */
  datatype World = World(
    state: State, put: multiset<Event>, completed: multiset<Event>, lost: multiset<Event>, history: seq<Handled>,
    stopped: bool)

  predicate Enabled(w: World, step: Step) {
    !w.stopped && (step.Take? ==> w.state.main != [])
  }

  function Perform(c: Config, w: World, step: Step): World
    requires Enabled(w, step)
  {
    match step
    case Put(e) => w.(state := w.state.(main := w.state.main + [e]), put := w.put + multiset{e})
    case Requeue(now) => w.(state := EnqueueDue(w.state, now))
    case Take(verdict, now) =>
      var e := w.state.main[0];
      var (next, raised) := Dispatch(c, w.state, verdict, now);
      w.(state := next, stopped := raised, history := w.history + [Handled(e, verdict)],
         completed := if verdict == Success then w.completed + multiset{e} else w.completed,
         lost := if raised then w.lost + multiset{e} else w.lost)
  }

  const START: World := World(State([], [], map[], map[], 0), multiset{}, multiset{}, multiset{}, [], false)

  // ----- Invariants -----

  /** The event has the type and the document id that make up the key. */
  predicate Of(e: Event, k: Key) { e.kind == k.0 && e.docId == k.1 }

  /** How many times in a row the latest dispatches of that type and document ended this way. */
  function Streak(history: seq<Handled>, k: Key, verdict: Verdict): nat {
    if history == [] then 0
    else
      var last, before := history[|history| - 1], history[..|history| - 1];
      if !Of(last.event, k) then Streak(before, k, verdict)
      else if last.verdict == verdict then 1 + Streak(before, k, verdict)
      else 0
  }

  lemma StreakExtended(history: seq<Handled>, h: Handled)
    ensures forall k, v :: !Of(h.event, k) ==> Streak(history + [h], k, v) == Streak(history, k, v)
    ensures forall k :: Of(h.event, k) ==> Streak(history + [h], k, h.verdict) == 1 + Streak(history, k, h.verdict)
    ensures forall k, v :: Of(h.event, k) && v != h.verdict ==> Streak(history + [h], k, v) == 0
  {
    assert (history + [h])[..|history|] == history;
  }

  ghost predicate Conserved(w: World) {
    && w.put == w.completed + multiset(w.state.main) + multiset(Items(w.state.retries)) + w.lost
    && (!w.stopped ==> w.lost == multiset{}) && |w.lost| <= 1
  }

  ghost predicate Ordered(s: State) { Sorted(s.retries) && Numbered(s.retries, s.sequence) }

  /** The counters are the streaks, a key is counted in one map at most, and no
      streak of unknown errors exceeds the budget. */
  ghost predicate Counted(c: Config, w: World) {
    && (forall k :: Count(w.state.unknown, k) == Streak(w.history, k, Unknown))
    && (forall k :: Count(w.state.retryable, k) == Streak(w.history, k, Retryable))
    && w.state.unknown.Keys !! w.state.retryable.Keys
    && (forall k :: k in w.state.unknown ==> 1 <= w.state.unknown[k] <= c.budget)
    && (forall k :: k in w.state.retryable ==> 1 <= w.state.retryable[k])
  }

  ghost predicate Inv(c: Config, w: World) {
    Conserved(w) && Ordered(w.state) && (!w.stopped ==> Counted(c, w))
  }

  // ----- Every step keeps them -----

  lemma ItemsSplit(s: seq<Entry<Event>>, n: nat)
    requires n <= |s|
    ensures multiset(Items(s[..n])) + multiset(Items(s[n..])) == multiset(Items(s))
  {
    assert Items(s) == Items(s[..n]) + Items(s[n..]);
  }

  lemma {:induction false} PushItems(s: seq<Entry<Event>>, e: Entry<Event>)
    ensures multiset(Items(Push(s, e))) == multiset(Items(s)) + multiset{e.item}
    decreases |s|
  {
    if s == [] {
      assert Items([e]) == [e.item];
    } else if Earlier(e, s[0]) {
      assert Items([e] + s) == [e.item] + Items(s);
    } else {
      PushItems(s[1..], e);
      assert Items([s[0]] + Push(s[1..], e)) == [s[0].item] + Items(Push(s[1..], e));
      assert Items(s) == [s[0].item] + Items(s[1..]);
    }
  }

  /** The entry a failed dispatch would schedule. */
  function RetryEntry(c: Config, s: State, verdict: Verdict, now: real): Entry<Event>
    requires s.main != []
  {
    var counts := if verdict == Unknown then s.unknown else s.retryable;
    Entry(now + Backoff(c, Count(counts, KeyOf(s.main[0])) + 1), s.sequence, s.main[0])
  }

  /** A dispatch takes the head of the queue and schedules at most that event again. */
  lemma DispatchMoves(c: Config, s: State, verdict: Verdict, now: real)
    requires s.main != []
    ensures var (next, raised) := Dispatch(c, s, verdict, now);
      && next.main == s.main[1..]
      && (if raised || verdict == Success then next.retries == s.retries && next.sequence == s.sequence
          else next.retries == Push(s.retries, RetryEntry(c, s, verdict, now)) && next.sequence == s.sequence + 1)
  {
  }

  lemma DispatchConserves(c: Config, s: State, verdict: Verdict, now: real)
    requires s.main != []
    ensures var (next, raised) := Dispatch(c, s, verdict, now);
      multiset(s.main) + multiset(Items(s.retries))
      == multiset(next.main) + multiset(Items(next.retries))
         + if raised || verdict == Success then multiset{s.main[0]} else multiset{}
  {
    DispatchMoves(c, s, verdict, now);
    assert s.main == [s.main[0]] + s.main[1..];
    PushItems(s.retries, RetryEntry(c, s, verdict, now));
  }

  lemma Regroup(completed: multiset<Event>, queued: multiset<Event>, after: multiset<Event>, e: multiset<Event>)
    requires queued == after + e
    ensures completed + queued == completed + e + after && completed + queued == completed + after + e
  {
  }

  lemma TakeConserves(c: Config, w: World, step: Step)
    requires Conserved(w) && Enabled(w, step) && step.Take?
    ensures Conserved(Perform(c, w, step))
  {
    var e := multiset{w.state.main[0]};
    var (next, raised) := Dispatch(c, w.state, step.verdict, step.now);
    var queued := multiset(w.state.main) + multiset(Items(w.state.retries));
    var after := multiset(next.main) + multiset(Items(next.retries));
    DispatchConserves(c, w.state, step.verdict, step.now);
    SuccessGoesOn(c, w.state, step.now);
    assert w.put == w.completed + queued;
    Regroup(w.completed, queued, after, if raised || step.verdict == Success then e else multiset{});
    var w' := Perform(c, w, step);
    assert w'.completed + multiset(w'.state.main) + multiset(Items(w'.state.retries)) + w'.lost
      == w'.completed + after + w'.lost;
    if raised {
      assert w'.lost == e && |e| == 1 && w'.completed == w.completed;
    } else {
      assert w'.lost == multiset{};
    }
  }

  lemma SuccessGoesOn(c: Config, s: State, now: real)
    requires s.main != []
    ensures !Dispatch(c, s, Success, now).1
  {
  }

  lemma StepConserves(c: Config, w: World, step: Step)
    requires Conserved(w) && Enabled(w, step)
    ensures Conserved(Perform(c, w, step))
  {
    match step
    case Put(e) => assert multiset(w.state.main + [e]) == multiset(w.state.main) + multiset{e};
    case Requeue(now) =>
      var due := DueCount(w.state.retries, now);
      ItemsSplit(w.state.retries, due);
      assert multiset(w.state.main + Items(w.state.retries[..due]))
        == multiset(w.state.main) + multiset(Items(w.state.retries[..due]));
    case Take(_, _) => TakeConserves(c, w, step);
  }

  lemma StepOrders(c: Config, w: World, step: Step)
    requires Ordered(w.state) && Enabled(w, step)
    ensures Ordered(Perform(c, w, step).state)
  {
    if step.Take? {
      DispatchMoves(c, w.state, step.verdict, step.now);
      PushSorted(w.state.retries, RetryEntry(c, w.state, step.verdict, step.now));
    }
  }

  /** Counting a failure of one kind forgets the failures of the other. */
  lemma FailureCounts(counts: map<Key, nat>, other: map<Key, nat>, history: seq<Handled>, e: Event, v: Verdict, o: Verdict)
    requires v != o && (forall x :: Count(counts, x) == Streak(history, x, v))
    requires forall x :: Count(other, x) == Streak(history, x, o)
    ensures var k := KeyOf(e);
      forall x :: Count(counts[k := Count(counts, k) + 1], x) == Streak(history + [Handled(e, v)], x, v)
    ensures forall x :: Count(other - {KeyOf(e)}, x) == Streak(history + [Handled(e, v)], x, o)
  {
    StreakExtended(history, Handled(e, v));
  }

  lemma SuccessCounts(counts: map<Key, nat>, history: seq<Handled>, e: Event, v: Verdict)
    requires v != Success && forall x :: Count(counts, x) == Streak(history, x, v)
    ensures forall x :: Count(counts - {KeyOf(e)}, x) == Streak(history + [Handled(e, Success)], x, v)
  {
    StreakExtended(history, Handled(e, Success));
  }

  lemma TakeCounts(c: Config, w: World, step: Step)
    requires Counted(c, w) && Enabled(w, step) && step.Take? && !Perform(c, w, step).stopped
    ensures Counted(c, Perform(c, w, step))
  {
    var e, s := w.state.main[0], w.state;
    match step.verdict
    case Success =>
      SuccessCounts(s.unknown, w.history, e, Unknown);
      SuccessCounts(s.retryable, w.history, e, Retryable);
    case Retryable => FailureCounts(s.retryable, s.unknown, w.history, e, Retryable, Unknown);
    case Unknown => FailureCounts(s.unknown, s.retryable, w.history, e, Unknown, Retryable);
    case Terminal =>
  }

  lemma StepKeepsInv(c: Config, w: World, step: Step)
    requires Inv(c, w) && Enabled(w, step)
    ensures Inv(c, Perform(c, w, step))
  {
    StepConserves(c, w, step);
    StepOrders(c, w, step);
    if step.Take? && !Perform(c, w, step).stopped { TakeCounts(c, w, step); }
  }

  ghost predicate IsRun(c: Config, w: World, steps: seq<Step>)
    decreases |steps|
  {
    steps == [] || (Enabled(w, steps[0]) && IsRun(c, Perform(c, w, steps[0]), steps[1..]))
  }

  ghost function After(c: Config, w: World, steps: seq<Step>): World
    requires IsRun(c, w, steps)
    decreases |steps|
  {
    if steps == [] then w else After(c, Perform(c, w, steps[0]), steps[1..])
  }

  lemma {:induction false} RunKeepsInv(c: Config, w: World, steps: seq<Step>)
    requires Inv(c, w) && IsRun(c, w, steps)
    ensures Inv(c, After(c, w, steps))
    decreases |steps|
  {
    if steps != [] {
      StepKeepsInv(c, w, steps[0]);
      RunKeepsInv(c, Perform(c, w, steps[0]), steps[1..]);
    }
  }

  // ----- In every run -----

  lemma StartInv(c: Config)
    ensures Inv(c, START)
  {
  }

  /** While the runner runs, every event ever put is completed, queued or waiting
      for a retry, exactly once; stopping loses only the event in hand. */
  lemma EventsConserved(c: Config, steps: seq<Step>)
    requires IsRun(c, START, steps)
    ensures var w := After(c, START, steps);
      && w.put == w.completed + multiset(w.state.main) + multiset(Items(w.state.retries)) + w.lost
      && (if w.stopped then |w.lost| <= 1 else w.lost == multiset{})
  {
    StartInv(c);
    RunKeepsInv(c, START, steps);
  }

  /** No retry is re-queued before its run time, and none that is due stays. */
  lemma RequeuedWhenDue(c: Config, steps: seq<Step>, now: real, e: Entry<Event>)
    requires IsRun(c, START, steps)
    ensures var s := After(c, START, steps).state;
      && (e in s.retries && e.runAt > now <==> e in EnqueueDue(s, now).retries)
      && EnqueueDue(s, now).main == s.main + Items(s.retries[..DueCount(s.retries, now)])
      && (e in s.retries[..DueCount(s.retries, now)] <==> e in s.retries && e.runAt <= now)
  {
    StartInv(c);
    RunKeepsInv(c, START, steps);
    DueSplit(After(c, START, steps).state.retries, now, e);
  }

  /** A retry is scheduled between the failure and the maximum delay after it. */
  lemma RetryWithinBounds(c: Config, s: State, verdict: Verdict, now: real, e: Entry<Event>)
    requires ValidConfig(c) && s.main != []
    requires e in Dispatch(c, s, verdict, now).0.retries && e !in s.retries
    ensures e.item == s.main[0] && now + c.base <= e.runAt <= now + c.max
  {
    DispatchMoves(c, s, verdict, now);
    BackoffBounds(c, Count(if verdict == Unknown then s.unknown else s.retryable, KeyOf(s.main[0])) + 1);
    PushContents(s.retries, RetryEntry(c, s, verdict, now));
  }

  /** Dispatching the head puts it into the agenda, after the delay that belongs to the
      length of its streak of such failures. */
  ghost predicate Reschedules(c: Config, w: World, verdict: Verdict, now: real)
    requires Enabled(w, Take(verdict, now))
  {
    var e, next := w.state.main[0], Perform(c, w, Take(verdict, now)).state;
    var runAt := now + Backoff(c, Streak(w.history, (e.kind, e.docId), verdict) + 1);
    next.retries == Push(w.state.retries, Entry(runAt, w.state.sequence, e)) && next.main == w.state.main[1..]
  }

  lemma FailureReschedules(c: Config, w: World, verdict: Verdict, now: real)
    requires Counted(c, w) && Enabled(w, Take(verdict, now)) && (verdict == Retryable || verdict == Unknown)
    requires !Perform(c, w, Take(verdict, now)).stopped
    ensures Reschedules(c, w, verdict, now)
  {
    var k := KeyOf(w.state.main[0]);
    DispatchMoves(c, w.state, verdict, now);
    assert Count(w.state.unknown, k) == Streak(w.history, k, Unknown);
    assert Count(w.state.retryable, k) == Streak(w.history, k, Retryable);
  }

  lemma RunningCounts(c: Config, steps: seq<Step>)
    requires IsRun(c, START, steps) && !After(c, START, steps).stopped
    ensures Counted(c, After(c, START, steps))
  {
    StartInv(c);
    RunKeepsInv(c, START, steps);
  }

  /** In every run a failed dispatch that does not stop the runner schedules its event
      again that way. */
  lemma RetriedAfterStreak(c: Config, steps: seq<Step>, verdict: Verdict, now: real)
    requires IsRun(c, START, steps) && Enabled(After(c, START, steps), Take(verdict, now))
    requires verdict == Retryable || verdict == Unknown
    requires !Perform(c, After(c, START, steps), Take(verdict, now)).stopped
    ensures Reschedules(c, After(c, START, steps), verdict, now)
  {
    RunningCounts(c, steps);
    FailureReschedules(c, After(c, START, steps), verdict, now);
  }

  /** Consecutive unknown errors of a key never exceed the budget while the runner
      runs, and retryable and unknown failures are never counted side by side. */
  lemma UnknownErrorsBounded(c: Config, steps: seq<Step>, k: Key)
    requires IsRun(c, START, steps) && !After(c, START, steps).stopped
    ensures Streak(After(c, START, steps).history, k, Unknown) <= c.budget
    ensures k !in After(c, START, steps).state.unknown || k !in After(c, START, steps).state.retryable
  {
    StartInv(c);
    RunKeepsInv(c, START, steps);
    var w := After(c, START, steps);
    assert Count(w.state.unknown, k) == Streak(w.history, k, Unknown);
  }

  /** The runner stops at a dispatch exactly on a terminal error, on an unknown
      error past the budget, or on a streak too long for the delay to be computed. */
  lemma StopsExactly(c: Config, steps: seq<Step>, verdict: Verdict, now: real)
    requires IsRun(c, START, steps) && Enabled(After(c, START, steps), Take(verdict, now))
    ensures var w := After(c, START, steps);
      var e := w.state.main[0];
      var streak := Streak(w.history, (e.kind, e.docId), verdict) + 1;
      Perform(c, w, Take(verdict, now)).stopped <==>
        || verdict == Terminal
        || (verdict == Unknown && (streak > c.budget || streak > 1024))
        || (verdict == Retryable && streak > 1024)
  {
    StartInv(c);
    RunKeepsInv(c, START, steps);
    var w := After(c, START, steps);
    assert Count(w.state.unknown, KeyOf(w.state.main[0])) == Streak(w.history, KeyOf(w.state.main[0]), Unknown);
    assert Count(w.state.retryable, KeyOf(w.state.main[0])) == Streak(w.history, KeyOf(w.state.main[0]), Retryable);
  }
}

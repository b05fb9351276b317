/** The event queue runner: events are taken from a main queue and dispatched;
    failed ones wait in a retry agenda with exponential backoff and return to the
    main queue when due. Delays are exact numbers. */
module QueueRunner {
  import opened Basics
  import opened Agenda

  type Key = (string, Option<string>)

  /** An event; its retry key is its type and the id of its document. */
  datatype Event = Event(kind: string, docId: Option<string>, body: nat)

  function KeyOf(e: Event): Key { (e.kind, e.docId) }

  /** How a dispatch ended. */
  datatype Verdict = Success | Retryable | Terminal | Unknown

  datatype Config = Config(base: real, max: real, budget: nat)

  predicate ValidConfig(c: Config) { 0.0 <= c.base <= c.max }

  datatype State = State(
    main: seq<Event>, retries: seq<Entry<Event>>, retryable: map<Key, nat>, unknown: map<Key, nat>, sequence: nat)

  // ----- Backoff -----

  /** base * 2^(attempt - 1) */
  function Doubled(base: real, attempt: nat): real {
    if attempt <= 1 then base else 2.0 * Doubled(base, attempt - 1)
  }

  /** The largest attempt whose power of two still converts to a float. */
  const LAST_ATTEMPT: nat := 1024

  function Backoff(c: Config, attempt: nat): real {
    var d := Doubled(c.base, attempt);
    if c.max <= d then c.max else d
  }

  lemma {:induction false} DoubledGrows(base: real, attempt: nat)
    requires base >= 0.0
    ensures base <= Doubled(base, attempt) <= Doubled(base, attempt + 1)
    decreases attempt
  {
    if attempt > 1 { DoubledGrows(base, attempt - 1); }
  }

  /** Delays start at the base, never shrink from one attempt to the next, never
      exceed the maximum, and stay at the maximum once they reach it. */
  lemma BackoffBounds(c: Config, attempt: nat)
    requires ValidConfig(c)
    ensures c.base <= Backoff(c, attempt) <= c.max
    ensures Backoff(c, attempt) <= Backoff(c, attempt + 1)
    ensures attempt <= 1 ==> Backoff(c, attempt) == c.base
    ensures attempt >= 1 ==>
      Backoff(c, attempt + 1) == if 2.0 * Backoff(c, attempt) <= c.max then 2.0 * Backoff(c, attempt) else c.max
  {
    DoubledGrows(c.base, attempt);
  }

  // ----- One dispatch -----

  function Count(m: map<Key, nat>, k: Key): nat { if k in m then m[k] else 0 }

  function Rescheduled(c: Config, s: State, e: Event, attempt: nat, now: real): State {
    s.(retries := Push(s.retries, Entry(now + Backoff(c, attempt), s.sequence, e)), sequence := s.sequence + 1)
  }

  /** The state after dispatching the head of the main queue, and whether the
      runner stops with an error. */
  function Dispatch(c: Config, s: State, verdict: Verdict, now: real): (State, bool)
    requires s.main != []
  {
    var e := s.main[0];
    var k := KeyOf(e);
    var taken := s.(main := s.main[1..]);
    match verdict
    case Success => (taken.(retryable := s.retryable - {k}, unknown := s.unknown - {k}), false)
    case Retryable =>
      var attempt := Count(s.retryable, k) + 1;
      var counted := taken.(retryable := s.retryable[k := attempt], unknown := s.unknown - {k});
      if attempt > LAST_ATTEMPT then (counted, true) else (Rescheduled(c, counted, e, attempt, now), false)
    case Terminal => (taken, true)
    case Unknown =>
      var attempt := Count(s.unknown, k) + 1;
      if attempt > c.budget then (taken.(unknown := s.unknown - {k}), true)
      else
        var counted := taken.(unknown := s.unknown[k := attempt], retryable := s.retryable - {k});
        if attempt > LAST_ATTEMPT then (counted, true) else (Rescheduled(c, counted, e, attempt, now), false)
  }

  /** Due retries go back to the main queue in order of run time. */
  function EnqueueDue(s: State, now: real): State {
    var due := DueCount(s.retries, now);
    s.(main := s.main + Items(s.retries[..due]), retries := s.retries[due..])
  }

  // ----- The runner object -----

  class QueueRunner {
    const config: Config
    var main: seq<Event>
    var retries: seq<Entry<Event>>
    var retryable: map<Key, nat>
    var unknown: map<Key, nat>
    var sequence: nat

    function View(): State
      reads this
    {
      State(main, retries, retryable, unknown, sequence)
    }

    /** Negative settings are raised to zero, and the maximum to the base. */
    constructor (base: real, max: real, budget: int)
      ensures ValidConfig(config) && View() == State([], [], map[], map[], 0)
      ensures config.base == base || (base < 0.0 && config.base == 0.0)
      ensures config.max == max || (max < config.base && config.max == config.base)
      ensures config.budget == budget || (budget < 0 && config.budget == 0)
    {
      var b := if base > 0.0 then base else 0.0;
      config := Config(b, if max > b then max else b, if budget > 0 then budget else 0);
      main, retries, retryable, unknown, sequence := [], [], map[], map[], 0;
    }

    method Put(e: Event)
      modifies this`main
      ensures View() == old(View()).(main := old(main) + [e])
    {
      main := main + [e];
    }

    method EnqueueDueRetries(now: real)
      modifies this`main, this`retries
      ensures View() == EnqueueDue(old(View()), now)
    {
      ghost var moved := 0;
      while |retries| > 0 && retries[0].runAt <= now
        invariant moved <= |old(retries)| && retries == old(retries)[moved..]
        invariant main == old(main) + Items(old(retries)[..moved])
        invariant moved + DueCount(retries, now) == DueCount(old(retries), now)
        decreases |retries|
      {
        var entry := retries[0];
        assert old(retries)[moved] == entry;
        assert Items(old(retries)[..moved + 1]) == Items(old(retries)[..moved]) + [entry.item];
        retries := retries[1..];
        main := main + [entry.item];
        moved := moved + 1;
      }
    }

    method ScheduleRetry(e: Event, delay: real, now: real)
      modifies this`retries, this`sequence
      ensures retries == Push(old(retries), Entry(now + (if delay > 0.0 then delay else 0.0), old(sequence), e))
      ensures sequence == old(sequence) + 1
    {
      var runAt := now + (if delay > 0.0 then delay else 0.0);
      retries := Push(retries, Entry(runAt, sequence, e));
      sequence := sequence + 1;
    }

    /** Takes the next event, dispatches it and reacts to how that ended. */
    method DispatchNext(verdict: Verdict, now: real) returns (raised: bool)
      requires main != [] && ValidConfig(config)
      modifies this
      ensures (View(), raised) == Dispatch(config, old(View()), verdict, now)
    {
      var e := main[0];
      main := main[1..];
      var k := KeyOf(e);
      if verdict == Retryable {
        var attempt := (if k in retryable then retryable[k] else 0) + 1;
        retryable := retryable[k := attempt];
        unknown := unknown - {k};
        if attempt > LAST_ATTEMPT { return true; }
        BackoffBounds(config, attempt);
        ScheduleRetry(e, Backoff(config, attempt), now);
        return false;
      }
      if verdict == Terminal { return true; }
      if verdict == Unknown {
        var attempt := (if k in unknown then unknown[k] else 0) + 1;
        if attempt <= config.budget {
          unknown := unknown[k := attempt];
          retryable := retryable - {k};
          if attempt > LAST_ATTEMPT { return true; }
          BackoffBounds(config, attempt);
          ScheduleRetry(e, Backoff(config, attempt), now);
          return false;
        }
        unknown := unknown - {k};
        return true;
      }
      retryable := retryable - {k};
      unknown := unknown - {k};
      return false;
    }
  }
}

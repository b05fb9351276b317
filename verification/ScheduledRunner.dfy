/** The runner of time-triggered housekeeping: entries that are due run once each,
    in order, and are put back strictly after now or dropped. */
module ScheduledRunner {
  import opened Basics
  import opened Agenda

  type Plugin = string

  /** What a plugin answers when asked for its next run time: nothing, a time
      without a time zone, a time, or an exception. A plugin that is not a
      scheduled one counts as answering nothing. */
  datatype Answer = NoRun | Naive | At(time: real) | Raises

  /** The answers to successive questions. */
  type Answers = nat -> Answer

  /** The time to run at as registered, and as put back after running at `now`. */
  function Asked(a: Answer): Option<real> { if a.At? then Some(a.time) else None }

  function PutBack(a: Answer, now: real): Option<real> {
    if a.At? then Some(if a.time <= now then now + 1.0 else a.time) else None
  }

  /** Who waits for when. */
  type Wait = (real, Plugin)

  ghost function Waits(s: seq<Entry<Plugin>>): multiset<Wait> {
    if s == [] then multiset{} else Waits(s[..|s| - 1]) + multiset{(s[|s| - 1].runAt, s[|s| - 1].item)}
  }

  ghost function One(runAt: Option<real>, p: Plugin): multiset<Wait> {
    if runAt.Some? then multiset{(runAt.value, p)} else multiset{}
  }

  /** What the first `n` entries of a list are put back as, after they ran in order. */
  ghost function Renewed(s: seq<Entry<Plugin>>, answers: Answers, now: real, n: nat): multiset<Wait>
    requires n <= |s|
  {
    if n == 0 then multiset{} else Renewed(s, answers, now, n - 1) + One(PutBack(answers(n - 1), now), s[n - 1].item)
  }

  /** One if the plugin run is the given one and its answer puts it back for the given
      time: a time after now is kept, any other becomes a second from now. */
  function Again(a: Answer, item: Plugin, now: real, runAt: real, p: Plugin): nat {
    match a
    case At(time) => if item == p && (runAt == time > now || (time <= now && runAt == now + 1.0)) then 1 else 0
    case _ => 0
  }

  /** How many of the first `n` entries run are put back for that plugin and time. */
  ghost function Asking(
    ran: seq<Entry<Plugin>>, answers: Answers, now: real, runAt: real, p: Plugin, n: nat): nat
    requires n <= |ran|
  {
    if n == 0 then 0
    else Asking(ran, answers, now, runAt, p, n - 1) + Again(answers(n - 1), ran[n - 1].item, now, runAt, p)
  }

  /** The queue holds the rest and what the entries run asked for. */
  ghost predicate WaitsAsAsked(
    q: seq<Entry<Plugin>>, rest: seq<Entry<Plugin>>, ran: seq<Entry<Plugin>>, answers: Answers, now: real)
  {
    forall runAt, p ::
      Waits(q)[(runAt, p)] == Waits(rest)[(runAt, p)] + Asking(ran, answers, now, runAt, p, |ran|)
  }

  lemma OneAgain(a: Answer, item: Plugin, now: real, runAt: real, p: Plugin)
    ensures One(PutBack(a, now), item)[(runAt, p)] == Again(a, item, now, runAt, p)
  {
  }

  lemma {:induction false} RenewedCounts(
    s: seq<Entry<Plugin>>, ran: seq<Entry<Plugin>>, answers: Answers, now: real, runAt: real, p: Plugin, n: nat)
    requires n <= |ran| <= |s| && ran == s[..|ran|]
    ensures Renewed(s, answers, now, n)[(runAt, p)] == Asking(ran, answers, now, runAt, p, n)
    decreases n
  {
    if n > 0 {
      RenewedCounts(s, ran, answers, now, runAt, p, n - 1);
      OneAgain(answers(n - 1), ran[n - 1].item, now, runAt, p);
    }
  }

  lemma RenewedAsAsked(
    start: seq<Entry<Plugin>>, q: seq<Entry<Plugin>>, ran: seq<Entry<Plugin>>, answers: Answers, now: real)
    requires |ran| <= |start| && ran == start[..|ran|]
    requires Waits(q) == Waits(start[|ran|..]) + Renewed(start, answers, now, |ran|)
    ensures WaitsAsAsked(q, start[|ran|..], ran, answers, now)
  {
    forall runAt, p
      ensures Waits(q)[(runAt, p)] == Waits(start[|ran|..])[(runAt, p)] + Asking(ran, answers, now, runAt, p, |ran|)
    {
      RenewedCounts(start, ran, answers, now, runAt, p, |ran|);
    }
  }

  // ----- Facts about the agenda -----

  lemma {:induction false} WaitsAppend(a: seq<Entry<Plugin>>, b: seq<Entry<Plugin>>)
    ensures Waits(a + b) == Waits(a) + Waits(b)
    decreases |b|
  {
    if b == [] {
      assert a + b == a;
    } else {
      assert (a + b)[..|a + b| - 1] == a + b[..|b| - 1];
      WaitsAppend(a, b[..|b| - 1]);
    }
  }

  lemma WaitsOne(e: Entry<Plugin>)
    ensures Waits([e]) == multiset{(e.runAt, e.item)}
  {
    assert [e][..0] == [];
  }

  lemma {:induction false} WaitsPush(s: seq<Entry<Plugin>>, e: Entry<Plugin>)
    ensures Waits(Push(s, e)) == Waits(s) + multiset{(e.runAt, e.item)}
    decreases |s|
  {
    WaitsOne(e);
    if s != [] {
      if Earlier(e, s[0]) {
        WaitsAppend([e], s);
      } else {
        WaitsPush(s[1..], e);
        WaitsAppend([s[0]], s[1..]);
        WaitsAppend([s[0]], Push(s[1..], e));
        assert s == [s[0]] + s[1..];
      }
    }
  }

  /** An entry after now goes behind everything due. */
  lemma {:induction false} PushBehindDue(s: seq<Entry<Plugin>>, e: Entry<Plugin>, now: real)
    requires e.runAt > now
    ensures |Push(s, e)| == |s| + 1 && DueCount(Push(s, e), now) == DueCount(s, now)
    ensures Push(s, e)[..DueCount(s, now)] == s[..DueCount(s, now)]
    decreases |s|
  {
    if s != [] && !Earlier(e, s[0]) {
      PushBehindDue(s[1..], e, now);
      if s[0].runAt <= now {
        var due := DueCount(s[1..], now);
        assert s[..1 + due] == [s[0]] + s[1..][..due];
        assert Push(s, e)[..1 + due] == [s[0]] + Push(s[1..], e)[..due];
      }
    }
  }

  class ScheduledRunner {
    var queue: seq<Entry<Plugin>>
    var sequence: nat

    ghost predicate Valid()
      reads this
    {
      Sorted(queue) && Numbered(queue, sequence)
    }

    constructor ()
      ensures Valid() && queue == [] && sequence == 0
    {
      queue, sequence := [], 0;
    }

    method Enqueue(p: Plugin, runAt: real)
      modifies this
      ensures queue == Push(old(queue), Entry(runAt, old(sequence), p)) && sequence == old(sequence) + 1
    {
      queue := Push(queue, Entry(runAt, sequence, p));
      sequence := sequence + 1;
    }

    /** Pops and runs the first entry, then asks when it wants to run again. */
    method RunFirst(now: real, answer: Answer) returns (entry: Entry<Plugin>, raised: bool)
      requires queue != []
      modifies this
      ensures entry == old(queue)[0] && raised == answer.Raises?
      ensures (queue, sequence) == AfterOne(old(queue), old(sequence), now, answer)
    {
      entry := queue[0];
      queue := queue[1..];
      if answer == Raises { return entry, true; }
      var next := Asked(answer);
      if next.Some? {
        var runAt := next.value;
        if runAt <= now { runAt := now + 1.0; }
        Enqueue(entry.item, runAt);
      }
      return entry, false;
    }

    /** Enabled plugins that name a time are queued for it, in the order given. */
    method RegisterPlugins(plugins: seq<Plugin>, enabled: Plugin -> bool, answers: Answers) returns (raised: bool)
      requires Valid()
      modifies this
      ensures Valid()
      ensures raised <==> exists i :: 0 <= i < |plugins| && enabled(plugins[i]) && answers(i) == Raises
      ensures !raised ==> Waits(queue) == Waits(old(queue)) + Registered(plugins, enabled, answers, |plugins|)
      // A plugin that raises ends the call; those before it stay queued.
      ensures raised ==> exists k ::
        FirstRaise(plugins, enabled, answers, k) && Adds(old(queue), queue, Registered(plugins, enabled, answers, k))
    {
      for i := 0 to |plugins|
        invariant Registering(old(queue), queue, sequence, plugins, enabled, answers, i)
      {
        if !enabled(plugins[i]) {
          RegisterSkips(old(queue), queue, sequence, plugins, enabled, answers, i);
          continue;
        }
        if answers(i) == Raises {
          assert FirstRaise(plugins, enabled, answers, i);
          return true;
        }
        var next := Asked(answers(i));
        if next.None? {
          RegisterSkips(old(queue), queue, sequence, plugins, enabled, answers, i);
          continue;
        }
        RegisterAdds(old(queue), queue, sequence, plugins, enabled, answers, i);
        Enqueue(plugins[i], next.value);
      }
      return false;
    }

    /** Runs everything due at `now`, whatever the plugins do when run.
        `ran` lists the entries that ran; an exception from the question for the
        next time ends the call. */
    method RunDue(now: real, answers: Answers) returns (ran: seq<Entry<Plugin>>, raised: bool)
      requires Valid()
      modifies this
      ensures Valid()
      ensures RanDue(old(queue), queue, answers, now, ran, raised)
    {
      ran, raised := [], false;
      while !raised && |queue| > 0 && queue[0].runAt <= now
        invariant Going(old(queue), queue, sequence, answers, now, ran, raised)
        decreases DueCount(queue, now)
      {
        GoOn(old(queue), queue, sequence, answers, now, ran);
        var answer := answers(|ran|);
        var entry;
        entry, raised := RunFirst(now, answer);
        ran := ran + [entry];
      }
      Concluded(old(queue), queue, sequence, answers, now, ran, raised);
    }
  }

  /** What a call of RunDue does to the queue `start`, leaving `q`. */
  ghost predicate RanDue(
    start: seq<Entry<Plugin>>, q: seq<Entry<Plugin>>, answers: Answers, now: real, ran: seq<Entry<Plugin>>, raised: bool)
  {
    // Each entry due at the start runs once, in order, and nothing else runs.
    && |ran| <= DueCount(start, now) && ran == start[..|ran|]
    && (!raised ==> |ran| == DueCount(start, now))
    // Every run entry is put back after now or dropped; the others stay.
    && Waits(q) == Waits(start[|ran|..]) + Renewed(start, answers, now, |ran|)
    && WaitsAsAsked(q, start[|ran|..], ran, answers, now)
    && |q| <= |start|
    && (!raised ==> forall i :: 0 <= i < |q| ==> q[i].runAt > now)
    && (raised <==> !NoneRaises(answers, DueCount(start, now)))
    && (raised ==> |ran| > 0 && answers(|ran| - 1) == Raises)
  }

  /** How far a call has got: `ran` lists the entries run, the last of which may
      have raised. */
  ghost predicate Going(
    start: seq<Entry<Plugin>>, q: seq<Entry<Plugin>>, sequence: nat, answers: Answers, now: real,
    ran: seq<Entry<Plugin>>, raised: bool)
  {
    && Sorted(q) && Numbered(q, sequence) && Progress(start, q, answers, now, |ran|)
    && |ran| <= |start| && ran == start[..|ran|]
    && (if raised then |ran| > 0 && answers(|ran| - 1) == Raises else NoneRaises(answers, |ran|))
  }

  lemma GoOn(
    start: seq<Entry<Plugin>>, q: seq<Entry<Plugin>>, sequence: nat, answers: Answers, now: real, ran: seq<Entry<Plugin>>)
    requires Going(start, q, sequence, answers, now, ran, false) && |q| > 0 && q[0].runAt <= now
    ensures var (after, next) := AfterOne(q, sequence, now, answers(|ran|));
      && Going(start, after, next, answers, now, ran + [q[0]], answers(|ran|) == Raises)
      && DueCount(after, now) < DueCount(q, now)
  {
    var n, listed := |ran|, ran + [q[0]];
    OneListed(start, q, now, ran);
    OneOrdered(q, sequence, answers(n), now);
    OneProgress(start, q, sequence, answers, now, n);
    assert |listed| == n + 1;
  }

  lemma Concluded(
    start: seq<Entry<Plugin>>, q: seq<Entry<Plugin>>, sequence: nat, answers: Answers, now: real,
    ran: seq<Entry<Plugin>>, raised: bool)
    requires Going(start, q, sequence, answers, now, ran, raised) && (raised || q == [] || q[0].runAt > now)
    ensures Sorted(q) && Numbered(q, sequence) && RanDue(start, q, answers, now, ran, raised)
  {
    RenewedAsAsked(start, q, ran, answers, now);
    if !raised {
      DueIsPrefix(q, now);
      assert q[..DueCount(start, now) - |ran|] == start[|ran|..DueCount(start, now)];
    }
  }

  /** None of the first `n` questions is answered with an exception. */
  ghost predicate NoneRaises(answers: Answers, n: nat) {
    forall i :: 0 <= i < n ==> answers(i) != Raises
  }

  /** What running the first entry leaves behind. */
  function AfterOne(q: seq<Entry<Plugin>>, sequence: nat, now: real, answer: Answer): (seq<Entry<Plugin>>, nat)
    requires q != []
  {
    var next := PutBack(answer, now);
    if next.Some? then (Push(q[1..], Entry(next.value, sequence, q[0].item)), sequence + 1) else (q[1..], sequence)
  }

  ghost predicate Adds(start: seq<Entry<Plugin>>, q: seq<Entry<Plugin>>, more: multiset<Wait>) {
    Waits(q) == Waits(start) + more
  }

  lemma PushAdds(start: seq<Entry<Plugin>>, q: seq<Entry<Plugin>>, more: multiset<Wait>, e: Entry<Plugin>)
    requires Adds(start, q, more)
    ensures Adds(start, Push(q, e), more + multiset{(e.runAt, e.item)})
  {
    WaitsPush(q, e);
    assert (Waits(start) + more) + multiset{(e.runAt, e.item)} == Waits(start) + (more + multiset{(e.runAt, e.item)});
  }

  /** The first enabled plugin that raises when asked for its time. */
  ghost predicate FirstRaise(plugins: seq<Plugin>, enabled: Plugin -> bool, answers: Answers, k: int) {
    && 0 <= k < |plugins| && enabled(plugins[k]) && answers(k) == Raises
    && forall j :: 0 <= j < k && enabled(plugins[j]) ==> answers(j) != Raises
  }

  /** The first `n` plugins have been looked at. */
  ghost predicate Registering(
    start: seq<Entry<Plugin>>, q: seq<Entry<Plugin>>, sequence: nat, plugins: seq<Plugin>, enabled: Plugin -> bool,
    answers: Answers, n: nat)
  {
    && n <= |plugins| && Sorted(q) && Numbered(q, sequence)
    && Adds(start, q, Registered(plugins, enabled, answers, n))
    && forall j :: 0 <= j < n && enabled(plugins[j]) ==> answers(j) != Raises
  }

  lemma RegisterSkips(
    start: seq<Entry<Plugin>>, q: seq<Entry<Plugin>>, sequence: nat, plugins: seq<Plugin>, enabled: Plugin -> bool,
    answers: Answers, n: nat)
    requires Registering(start, q, sequence, plugins, enabled, answers, n) && n < |plugins|
    requires !enabled(plugins[n]) || (Asked(answers(n)).None? && answers(n) != Raises)
    ensures Registering(start, q, sequence, plugins, enabled, answers, n + 1)
  {
    assert Registered(plugins, enabled, answers, n + 1) == Registered(plugins, enabled, answers, n);
  }

  lemma RegisterAdds(
    start: seq<Entry<Plugin>>, q: seq<Entry<Plugin>>, sequence: nat, plugins: seq<Plugin>, enabled: Plugin -> bool,
    answers: Answers, n: nat)
    requires Registering(start, q, sequence, plugins, enabled, answers, n) && n < |plugins|
    requires enabled(plugins[n]) && answers(n).At?
    ensures Registering(start, Push(q, Entry(answers(n).time, sequence, plugins[n])), sequence + 1, plugins, enabled, answers, n + 1)
  {
    var e := Entry(answers(n).time, sequence, plugins[n]);
    PushSorted(q, e);
    PushAdds(start, q, Registered(plugins, enabled, answers, n), e);
    assert Registered(plugins, enabled, answers, n + 1)
      == Registered(plugins, enabled, answers, n) + multiset{(e.runAt, e.item)};
  }

  /** What registering the first `n` plugins adds. */
  ghost function Registered(plugins: seq<Plugin>, enabled: Plugin -> bool, answers: Answers, n: nat): multiset<Wait>
    requires n <= |plugins|
  {
    if n == 0 then multiset{}
    else Registered(plugins, enabled, answers, n - 1)
         + (if enabled(plugins[n - 1]) then One(Asked(answers(n - 1)), plugins[n - 1]) else multiset{})
  }

  /** After `n` of the due entries of `start` ran, the rest are still at the front. */
  ghost predicate Front(start: seq<Entry<Plugin>>, q: seq<Entry<Plugin>>, now: real, n: nat) {
    var due := DueCount(start, now);
    n <= due && due - n <= |q| && DueCount(q, now) == due - n && q[..due - n] == start[n..due]
  }

  /** The first `n` entries were taken, of which `m` have been put back or dropped. */
  ghost predicate Account(start: seq<Entry<Plugin>>, q: seq<Entry<Plugin>>, answers: Answers, now: real, n: nat, m: nat) {
    m <= n <= |start| && Waits(q) == Waits(start[n..]) + Renewed(start, answers, now, m)
  }

  ghost predicate Progress(start: seq<Entry<Plugin>>, q: seq<Entry<Plugin>>, answers: Answers, now: real, n: nat) {
    Front(start, q, now, n) && |q| <= |start| && Account(start, q, answers, now, n, n)
  }

  lemma PopFront(start: seq<Entry<Plugin>>, q: seq<Entry<Plugin>>, now: real, n: nat)
    requires Front(start, q, now, n) && |q| > 0 && q[0].runAt <= now
    ensures n < DueCount(start, now) && q[0] == start[n] && Front(start, q[1..], now, n + 1)
  {
    var due := DueCount(start, now);
    assert q[0] == q[..due - n][0] && start[n] == start[n..due][0];
    assert q[1..][..due - n - 1] == q[..due - n][1..];
    assert start[n + 1..due] == start[n..due][1..];
  }

  lemma WaitsHead(s: seq<Entry<Plugin>>)
    requires s != []
    ensures Waits(s) == multiset{(s[0].runAt, s[0].item)} + Waits(s[1..])
  {
    assert s == [s[0]] + s[1..];
    WaitsAppend([s[0]], s[1..]);
    WaitsOne(s[0]);
  }

  lemma Cancel(h: multiset<Wait>, a: multiset<Wait>, b: multiset<Wait>, r: multiset<Wait>)
    requires h + a == (h + b) + r
    ensures a == b + r
  {
    assert (h + a) - h == a && ((h + b) + r) - h == b + r;
  }

  lemma PopAccount(start: seq<Entry<Plugin>>, q: seq<Entry<Plugin>>, answers: Answers, now: real, n: nat)
    requires Account(start, q, answers, now, n, n) && n < |start| && |q| > 0 && q[0] == start[n]
    ensures Account(start, q[1..], answers, now, n + 1, n)
  {
    WaitsHead(q);
    WaitsHead(start[n..]);
    assert start[n..][1..] == start[n + 1..] && start[n..][0] == start[n];
    Cancel(multiset{(q[0].runAt, q[0].item)}, Waits(q[1..]), Waits(start[n + 1..]), Renewed(start, answers, now, n));
  }

  /** Popping yields the next entry of the start; dropping it is progress. */
  lemma Popped(start: seq<Entry<Plugin>>, q: seq<Entry<Plugin>>, answers: Answers, now: real, n: nat)
    requires Progress(start, q, answers, now, n) && |q| > 0 && q[0].runAt <= now
    ensures n < DueCount(start, now) && q[0] == start[n]
    ensures Front(start, q[1..], now, n + 1) && Account(start, q[1..], answers, now, n + 1, n)
  {
    PopFront(start, q, now, n);
    PopAccount(start, q, answers, now, n);
  }

  lemma Dropped(start: seq<Entry<Plugin>>, q: seq<Entry<Plugin>>, answers: Answers, now: real, n: nat)
    requires Account(start, q, answers, now, n + 1, n) && PutBack(answers(n), now).None?
    ensures Account(start, q, answers, now, n + 1, n + 1)
  {
    assert Renewed(start, answers, now, n + 1) == Renewed(start, answers, now, n);
  }

  lemma PushFront(start: seq<Entry<Plugin>>, q: seq<Entry<Plugin>>, now: real, n: nat, e: Entry<Plugin>)
    requires Front(start, q, now, n) && e.runAt > now
    ensures Front(start, Push(q, e), now, n) && |Push(q, e)| == |q| + 1
  {
    PushBehindDue(q, e, now);
  }

  lemma RunAgain(start: seq<Entry<Plugin>>, q: seq<Entry<Plugin>>, answers: Answers, now: real, n: nat, e: Entry<Plugin>)
    requires Account(start, q, answers, now, n + 1, n) && PutBack(answers(n), now) == Some(e.runAt) && e.item == start[n].item
    ensures Account(start, Push(q, e), answers, now, n + 1, n + 1)
  {
    WaitsPush(q, e);
    var one := multiset{(e.runAt, e.item)};
    assert Renewed(start, answers, now, n + 1) == Renewed(start, answers, now, n) + one;
    assert (Waits(start[n + 1..]) + Renewed(start, answers, now, n)) + one
      == Waits(start[n + 1..]) + (Renewed(start, answers, now, n) + one);
  }

  lemma OneDropped(start: seq<Entry<Plugin>>, q: seq<Entry<Plugin>>, answers: Answers, now: real, n: nat)
    requires Progress(start, q, answers, now, n) && |q| > 0 && q[0].runAt <= now && PutBack(answers(n), now).None?
    ensures Progress(start, q[1..], answers, now, n + 1)
  {
    Popped(start, q, answers, now, n);
    Dropped(start, q[1..], answers, now, n);
  }

  lemma OneRenewed(start: seq<Entry<Plugin>>, q: seq<Entry<Plugin>>, answers: Answers, now: real, n: nat, sequence: nat)
    requires Progress(start, q, answers, now, n) && |q| > 0 && q[0].runAt <= now && PutBack(answers(n), now).Some?
    ensures Progress(start, Push(q[1..], Entry(PutBack(answers(n), now).value, sequence, q[0].item)), answers, now, n + 1)
  {
    var e := Entry(PutBack(answers(n), now).value, sequence, q[0].item);
    Popped(start, q, answers, now, n);
    PushFront(start, q[1..], now, n + 1, e);
    RunAgain(start, q[1..], answers, now, n, e);
  }

  lemma OneProgress(
    start: seq<Entry<Plugin>>, q: seq<Entry<Plugin>>, sequence: nat, answers: Answers, now: real, n: nat)
    requires Progress(start, q, answers, now, n) && |q| > 0 && q[0].runAt <= now
    ensures Progress(start, AfterOne(q, sequence, now, answers(n)).0, answers, now, n + 1)
  {
    if PutBack(answers(n), now).Some? {
      OneRenewed(start, q, answers, now, n, sequence);
    } else {
      OneDropped(start, q, answers, now, n);
    }
  }

  lemma OneOrdered(q: seq<Entry<Plugin>>, sequence: nat, answer: Answer, now: real)
    requires Sorted(q) && Numbered(q, sequence) && |q| > 0
    ensures var (after, next) := AfterOne(q, sequence, now, answer); Sorted(after) && Numbered(after, next)
  {
    var next := PutBack(answer, now);
    if next.Some? { PushSorted(q[1..], Entry(next.value, sequence, q[0].item)); }
  }

  lemma OneListed(start: seq<Entry<Plugin>>, q: seq<Entry<Plugin>>, now: real, ran: seq<Entry<Plugin>>)
    requires Front(start, q, now, |ran|) && |q| > 0 && q[0].runAt <= now && |ran| <= |start| && ran == start[..|ran|]
    ensures |ran| < |start| && ran + [q[0]] == start[..|ran| + 1]
  {
    PopFront(start, q, now, |ran|);
  }
}

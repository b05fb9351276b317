/** When the scheduler stops, and with what: only after a cancellation, a failed claim
    or a failed dispatch, and with an error exactly after one of the last two. */
module RuntimeStops {
  import opened Basics
  import opened Cells
  import opened Runtime

  datatype Trouble = Cancellation | ClaimError | DispatchError

  /** The action is such a trouble: the context is cancelled, the store cannot claim,
      or the worker, the handler or the store fails a dispatch. */
  ghost predicate Raises(s: State, a: Action, t: Trouble)
    requires Enabled(s, a)
  {
    match t
    case Cancellation => a == Outside(Cancel)
    case ClaimError => a == Scheduler(ClaimFails)
    case DispatchError =>
      && a.Worker?
      && (a.work.Refuse? || a.work.ApplyFails? || (a.work.Report? && s.dispatches[a.dispatch].phase.result.ErrorResult?))
  }

  lemma {:induction false} RunSplit(s: State, actions: seq<Action>)
    requires IsRun(s, actions) && actions != []
    ensures var before := actions[..|actions| - 1];
      && IsRun(s, before) && Enabled(After(s, before), actions[|actions| - 1])
      && After(s, actions) == Perform(After(s, before), actions[|actions| - 1])
    decreases |actions|
  {
    if |actions| > 1 {
      var rest := actions[1..];
      RunSplit(Perform(s, actions[0]), rest);
      assert actions[..|actions| - 1][1..] == rest[..|rest| - 1];
    }
  }

  /** The trouble has come up in the run since the scheduler was last started. */
  ghost predicate SinceStart(s: State, actions: seq<Action>, t: Trouble)
    requires IsRun(s, actions)
    decreases |actions|
  {
    actions != [] &&
    (RunSplit(s, actions);
     var before, a := actions[..|actions| - 1], actions[|actions| - 1];
     Raises(After(s, before), a, t) || (a != Outside(Start) && SinceStart(s, before, t)))
  }

  predicate Stopped(loop: Loop) { loop == Stopping || loop == Returned }

  ghost predicate FailurePending(s: State) {
    exists k :: k in s.dispatches && s.dispatches[k].phase == Ended(true)
  }

  /** What the scheduler's state shows of the troubles since its start. */
  ghost predicate Shows(s: State, cancelled: bool, claim: bool, dispatch: bool) {
    s.loop != Down ==>
      && (s.cancelled ==> cancelled || Stopped(s.loop))
      && (Stopped(s.loop) ==> cancelled || claim || dispatch)
      && (s.failed ==> Stopped(s.loop) && (claim || dispatch))
      && (claim ==> s.failed)
      && (s.errorBuffered || FailurePending(s) ==> dispatch)
      && (dispatch ==> s.failed || s.errorBuffered || FailurePending(s))
      && (s.loop == Returned ==> s.dispatches == map[] && (dispatch ==> s.failed))
      && (s.loop == Polling ==> s.free > 0)
  }

  ghost predicate Now(s: State, a: Action, t: Trouble, before: bool)
    requires Enabled(s, a)
  {
    Raises(s, a, t) || (a != Outside(Start) && before)
  }

  /** A change that touches neither the loop nor its dispatches. */
  lemma LoopUntouched(s: State, next: State, cancelled: bool, claim: bool, dispatch: bool)
    requires Shows(s, cancelled, claim, dispatch)
    requires next == s.(cells := next.cells, log := next.log, now := next.now)
    ensures Shows(next, cancelled, claim, dispatch)
  {
    assert FailurePending(next) <==> FailurePending(s);
  }

  lemma QuietShows(s: State, a: Action, cancelled: bool, claim: bool, dispatch: bool)
    requires Shows(s, cancelled, claim, dispatch) && Enabled(s, a) && a.Outside? && (a.outside.Elapse? || a.outside.Submit?)
    ensures Shows(Perform(s, a), cancelled, claim, dispatch)
  {
    LoopUntouched(s, Perform(s, a), cancelled, claim, dispatch);
  }

  lemma CancelShows(s: State, a: Action, cancelled: bool, claim: bool, dispatch: bool)
    requires Shows(s, cancelled, claim, dispatch) && Enabled(s, a) && a == Outside(Cancel)
    ensures Shows(Perform(s, a), true, claim, dispatch)
  {
    assert FailurePending(Perform(s, a)) <==> FailurePending(s);
  }

  lemma RestartShows(s: State, a: Action)
    requires Enabled(s, a) && (a == Outside(Start) || a == Outside(Crash))
    ensures Shows(Perform(s, a), false, false, false)
    ensures a == Outside(Crash) ==> forall c, q, d :: Shows(Perform(s, a), c, q, d)
  {
  }

  lemma OutsideNow(s: State, a: Action, t: Trouble, before: bool)
    requires Enabled(s, a) && a.Outside?
    ensures Now(s, a, t, before)
      == ((a.outside.Cancel? && t == Cancellation) || (!a.outside.Start? && before))
  {
  }

  lemma OutsideShows(s: State, a: Action, cancelled: bool, claim: bool, dispatch: bool)
    requires Shows(s, cancelled, claim, dispatch) && Enabled(s, a) && a.Outside?
    ensures Shows(Perform(s, a), Now(s, a, Cancellation, cancelled), Now(s, a, ClaimError, claim),
                  Now(s, a, DispatchError, dispatch))
  {
    OutsideNow(s, a, Cancellation, cancelled);
    OutsideNow(s, a, ClaimError, claim);
    OutsideNow(s, a, DispatchError, dispatch);
    if a.outside.Cancel? {
      CancelShows(s, a, cancelled, claim, dispatch);
    } else if a.outside.Start? || a.outside.Crash? {
      RestartShows(s, a);
    } else {
      QuietShows(s, a, cancelled, claim, dispatch);
    }
  }

  lemma LoopShows(s: State, a: Action, cancelled: bool, claim: bool, dispatch: bool)
    requires Inv(s) && Shows(s, cancelled, claim, dispatch) && Enabled(s, a) && a.Scheduler?
    ensures Shows(Perform(s, a), Now(s, a, Cancellation, cancelled), Now(s, a, ClaimError, claim),
                  Now(s, a, DispatchError, dispatch))
  {
    var next := Perform(s, a);
    if a.move.ClaimCell? {
      ClaimedNotFailed(s, next, a.move.dispatch);
    }
  }

  lemma ClaimedNotFailed(s: State, next: State, k: nat)
    requires k !in s.dispatches && k in next.dispatches && !next.dispatches[k].phase.Ended?
    requires next.dispatches == s.dispatches[k := next.dispatches[k]]
    ensures FailurePending(next) <==> FailurePending(s)
  {
    if FailurePending(s) {
      var m :| m in s.dispatches && s.dispatches[m].phase == Ended(true);
      assert next.dispatches[m].phase == Ended(true);
    }
  }

  /** How one worker's move changes whether a failure is still to be reported. */
  lemma WorkerPending(s: State, k: nat, a: WorkerAction)
    requires k in s.dispatches && WorkerEnabled(s, k, a)
    ensures var next := WorkerStep(s, k, a);
      && (FailurePending(next) ==> FailurePending(s) || Raises(s, Worker(k, a), DispatchError))
      && (Raises(s, Worker(k, a), DispatchError) ==> FailurePending(next))
      && (FailurePending(s) ==> FailurePending(next) || next.errorBuffered)
  {
    var next := WorkerStep(s, k, a);
    if Raises(s, Worker(k, a), DispatchError) { assert next.dispatches[k].phase == Ended(true); }
    if FailurePending(s) {
      var m :| m in s.dispatches && s.dispatches[m].phase == Ended(true);
      if m != k { assert next.dispatches[m].phase == Ended(true); }
    }
  }

  lemma WorkerShows(s: State, a: Action, cancelled: bool, claim: bool, dispatch: bool)
    requires Inv(s) && Shows(s, cancelled, claim, dispatch) && Enabled(s, a) && a.Worker?
    ensures Shows(Perform(s, a), Now(s, a, Cancellation, cancelled), Now(s, a, ClaimError, claim),
                  Now(s, a, DispatchError, dispatch))
  {
    WorkerPending(s, a.dispatch, a.work);
  }

  lemma StepShows(s: State, a: Action, cancelled: bool, claim: bool, dispatch: bool)
    requires Inv(s) && Shows(s, cancelled, claim, dispatch) && Enabled(s, a)
    ensures Shows(Perform(s, a), Now(s, a, Cancellation, cancelled), Now(s, a, ClaimError, claim),
                  Now(s, a, DispatchError, dispatch))
  {
    match a
    case Outside(_) => OutsideShows(s, a, cancelled, claim, dispatch);
    case Scheduler(_) => LoopShows(s, a, cancelled, claim, dispatch);
    case Worker(_, _) => WorkerShows(s, a, cancelled, claim, dispatch);
  }

  lemma {:induction false} RunShows(workers: nat, now: Time, actions: seq<Action>)
    requires IsRun(Initial(workers, now), actions)
    ensures var s := Initial(workers, now);
      && Inv(After(s, actions))
      && Shows(After(s, actions), SinceStart(s, actions, Cancellation), SinceStart(s, actions, ClaimError),
               SinceStart(s, actions, DispatchError))
    decreases |actions|
  {
    var s := Initial(workers, now);
    RunKeepsInv(s, actions);
    if actions != [] {
      RunSplit(s, actions);
      var before, a := actions[..|actions| - 1], actions[|actions| - 1];
      RunShows(workers, now, before);
      StepShows(After(s, before), a, SinceStart(s, before, Cancellation), SinceStart(s, before, ClaimError),
                SinceStart(s, before, DispatchError));
    }
  }

  /** In every run the scheduler stops only after a trouble since its start. */
  lemma StopsOnlyInTrouble(workers: nat, now: Time, actions: seq<Action>)
    requires IsRun(Initial(workers, now), actions) && Stopped(After(Initial(workers, now), actions).loop)
    ensures exists t :: SinceStart(Initial(workers, now), actions, t)
  {
    RunShows(workers, now, actions);
  }

  /** When it has returned, it returned an error exactly if a claim or a dispatch failed. */
  lemma ErrorIffSomethingFailed(workers: nat, now: Time, actions: seq<Action>)
    requires IsRun(Initial(workers, now), actions) && After(Initial(workers, now), actions).loop == Returned
    ensures var s := Initial(workers, now);
      After(s, actions).failed <==> SinceStart(s, actions, ClaimError) || SinceStart(s, actions, DispatchError)
  {
    RunShows(workers, now, actions);
  }

  /** Untroubled, a scheduler that has found nothing to run goes round again: when its
      poll ends it can take a token and claim at once. */
  lemma PollsAgain(workers: nat, now: Time, actions: seq<Action>)
    requires IsRun(Initial(workers, now), actions) && After(Initial(workers, now), actions).loop == Polling
    requires forall t :: !SinceStart(Initial(workers, now), actions, t)
    ensures var s, round := After(Initial(workers, now), actions), [Scheduler(PollOver), Scheduler(Take), Scheduler(Pass)];
      IsRun(s, round) && After(s, round) == s.(loop := Claiming, free := s.free - 1)
  {
    RunShows(workers, now, actions);
    var s := After(Initial(workers, now), actions);
    var round := [Scheduler(PollOver), Scheduler(Take), Scheduler(Pass)];
    assert !SinceStart(Initial(workers, now), actions, Cancellation);
    assert !SinceStart(Initial(workers, now), actions, DispatchError);
    var s1 := Perform(s, round[0]);
    var s2 := Perform(s1, round[1]);
    assert round[1..][1..] == [Scheduler(Pass)] && round[1..][1..][1..] == [];
    assert IsRun(s2, round[1..][1..]);
    assert IsRun(s1, round[1..]);
  }

  // ----- Running when due, and not before -----

  /** In every run a handler is called only for a stored cell claimed at that very step
      whose earliest run time has come, and the log notes the time of the call. */
  lemma ExecutesWhenDue(workers: nat, now: Time, actions: seq<Action>, k: nat, result: HandlerResult)
    requires IsRun(Initial(workers, now), actions)
    requires Enabled(After(Initial(workers, now), actions), Worker(k, Execute(result)))
    ensures var s := After(Initial(workers, now), actions);
      var cell := s.dispatches[k].claimed;
      && cell.id in s.cells && s.cells[cell.id] == cell && cell.state == Claimed
      && (cell.notBefore.Some? ==> cell.notBefore.value <= s.now)
      && Perform(s, Worker(k, Execute(result))).log == s.log + [Executed(cell.id, cell.currentStep, s.now)]
  {
    RunKeepsInv(Initial(workers, now), actions);
    var s := After(Initial(workers, now), actions);
    assert Live(s.dispatches[k]) && Owns(s.cells, s.standings, s.now, k, s.dispatches[k].claimed);
  }

  /** Actions that are not the scheduler's own, short of a crash. */
  predicate Meanwhile(actions: seq<Action>) {
    forall i :: 0 <= i < |actions| ==> !actions[i].Scheduler? && actions[i] != Outside(Crash)
  }

  lemma {:induction false} StaysPolling(s: State, actions: seq<Action>)
    requires IsRun(s, actions) && s.loop == Polling && Meanwhile(actions)
    ensures After(s, actions).loop == Polling
    decreases |actions|
  {
    if actions != [] { StaysPolling(Perform(s, actions[0]), actions[1..]); }
  }

  /** Having found nothing to run, the scheduler does not try again before its poll has
      ended: its next move ends the poll or stops. */
  lemma IdlePolls(s: State, actions: seq<Action>, move: LoopAction)
    requires LoopEnabled(s, ClaimNone) && IsRun(LoopStep(s, ClaimNone), actions) && Meanwhile(actions)
    requires LoopEnabled(After(LoopStep(s, ClaimNone), actions), move)
    ensures move == PollOver || move.Halt?
  {
    StaysPolling(LoopStep(s, ClaimNone), actions);
  }

  /** The moves that execute a ready cell: waiting for its time, a token, its claim. */
  function RoundFor(wait: nat, id: CellId, k: nat, result: HandlerResult): seq<Action> {
    [Outside(Elapse(wait)), Scheduler(Take), Scheduler(Pass), Scheduler(ClaimCell(id, k)), Worker(k, Execute(result))]
  }

  /** From any state of any run in which an untroubled scheduler has a free token, every
      ready cell can be executed at its current step once its time has come. */
  lemma ReadyCellRuns(workers: nat, now: Time, actions: seq<Action>, id: CellId, wait: nat, k: nat, result: HandlerResult)
    requires IsRun(Initial(workers, now), actions)
    requires var s := After(Initial(workers, now), actions);
      && s.loop == Top && s.free > 0 && !s.cancelled && !s.errorBuffered && k !in s.dispatches
      && id in s.cells && s.cells[id].state == Ready
      && (s.cells[id].notBefore.Some? ==> s.cells[id].notBefore.value <= s.now + wait)
    ensures var s, round := After(Initial(workers, now), actions), RoundFor(wait, id, k, result);
      IsRun(s, round) && After(s, round).log == s.log + [Executed(id, s.cells[id].currentStep, s.now + wait)]
  {
    RunKeepsInv(Initial(workers, now), actions);
    var s := After(Initial(workers, now), actions);
    var rest := [Scheduler(ClaimCell(id, k)), Worker(k, Execute(result))];
    TokenTaken(s, wait, id, k, result, rest);
    assert RoundFor(wait, id, k, result)
      == [Outside(Elapse(wait))] + ([Scheduler(Take)] + ([Scheduler(Pass)] + rest));
  }

  /** With the token taken, the loop is about to claim at the later time. */
  lemma TokenTaken(s: State, wait: nat, id: CellId, k: nat, result: HandlerResult, rest: seq<Action>)
    requires s.loop == Top && s.free > 0 && !s.cancelled && !s.errorBuffered && k !in s.dispatches && WellFormed(s.cells)
    requires id in s.cells && s.cells[id].state == Ready
    requires s.cells[id].notBefore.Some? ==> s.cells[id].notBefore.value <= s.now + wait
    requires rest == [Scheduler(ClaimCell(id, k)), Worker(k, Execute(result))]
    ensures var round := [Outside(Elapse(wait))] + ([Scheduler(Take)] + ([Scheduler(Pass)] + rest));
      IsRun(s, round) && After(s, round).log == s.log + [Executed(id, s.cells[id].currentStep, s.now + wait)]
  {
    var s1 := Perform(s, Outside(Elapse(wait)));
    var s2 := Perform(s1, Scheduler(Take));
    var s3 := Perform(s2, Scheduler(Pass));
    ClaimAndExecute(s3, id, k, result, rest);
    RunMore(s2, Scheduler(Pass), rest);
    RunMore(s1, Scheduler(Take), [Scheduler(Pass)] + rest);
    RunMore(s, Outside(Elapse(wait)), [Scheduler(Take)] + ([Scheduler(Pass)] + rest));
  }

  lemma ClaimAndExecute(s: State, id: CellId, k: nat, result: HandlerResult, moves: seq<Action>)
    requires moves == [Scheduler(ClaimCell(id, k)), Worker(k, Execute(result))] && WellFormed(s.cells)
    requires LoopEnabled(s, ClaimCell(id, k))
    ensures IsRun(s, moves) && After(s, moves).log == s.log + [Executed(id, s.cells[id].currentStep, s.now)]
  {
    var next := Perform(s, moves[0]);
    RunMore(next, moves[1], []);
    RunMore(s, moves[0], [moves[1]]);
    assert [moves[0]] + [moves[1]] == moves && [moves[1]] + [] == [moves[1]];
  }

  lemma RunMore(s: State, a: Action, rest: seq<Action>)
    requires Enabled(s, a) && IsRun(Perform(s, a), rest)
    ensures IsRun(s, [a] + rest) && After(s, [a] + rest) == After(Perform(s, a), rest)
  {
    assert ([a] + rest)[1..] == rest;
  }
}

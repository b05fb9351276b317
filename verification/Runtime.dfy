/** The Cellar runtime as a transition system: the scheduler loop, its capacity
    tokens, the dispatch goroutines, the worker that runs one step and applies
    its result, outside submissions, cancellation, crashes and restarts.

    Each action is one atomic piece of the source; any enabled action may happen
    next, so the theorems below cover every interleaving. */
module Runtime {
  import opened Basics
  import opened Cells

  /** Encoded step payloads and labels of application work; both opaque here. */
  type Payload = string
  type WorkLabel = string
  type HandlerResult = Result<Payload, WorkLabel>

  /** Where the scheduler loop stands. `Down` is before start and after a crash. */
  datatype Loop = Down | Top | Holding | Claiming | Polling | Stopping | Returned

  datatype Phase =
    | Running                        // claimed, handler not yet called
    | Answered(result: HandlerResult) // handler answered, result not yet applied
    | Ended(failed: bool)            // Dispatch has returned, with or without an error
    | Returning                      // error reported if any; token not yet returned
    | Releasing                      // token returned; wait group not yet told

  datatype Dispatch = Dispatch(claimed: Cell<Payload>, phase: Phase)

  /** How the latest dispatch of a cell stands since the last start. */
  datatype Standing = InFlight(dispatch: nat) | Worked | Broke | Ignored

  datatype Event =
    | Added(id: CellId, notBefore: Option<Time>, parent: Option<CellId>, length: nat)
    | Executed(id: CellId, step: int, at: Time)
    | Completed(id: CellId, step: int, isLast: bool)
    | Retried(id: CellId, notBefore: Option<Time>)
    | Restarted(id: CellId, notBefore: Option<Time>)
    | Killed(id: CellId)

  /** `failed` says whether the scheduler is returning, or has returned, an error. */
  datatype State = State(
    workers: nat, cells: CellMap<Payload>, now: Time, loop: Loop, free: int, errorBuffered: bool, cancelled: bool,
    failed: bool, dispatches: map<nat, Dispatch>, standings: map<CellId, Standing>, log: seq<Event>)

  /** What may happen from outside: time, submissions, cancellation, crash, start. */
  datatype OutsideAction =
    | Elapse(duration: nat)
    | Submit(requests: seq<Request<Payload>>, allocator: Allocator)
    | Cancel
    | Crash
    | Start

  /** Moves of the scheduler loop. */
  datatype LoopAction =
    | Take
    | Halt(byError: bool)
    | Pass
    | ClaimFails
    | ClaimNone
    | ClaimCell(id: CellId, dispatch: nat)
    | PollOver
    | Finish

  /** Moves of one dispatch goroutine. */
  datatype WorkerAction =
    | Refuse
    | Execute(result: HandlerResult)
    | Apply(allocator: Allocator)
    | ApplyFails
    | Report
    | EndDispatch
    | ReturnToken
    | Release

  datatype Action = Outside(outside: OutsideAction) | Scheduler(move: LoopAction) | Worker(dispatch: nat, work: WorkerAction)

  ghost predicate OutsideEnabled(s: State, a: OutsideAction) {
    match a
    case Elapse(_) => true
    case Submit(requests, allocator) => Add(s.cells, requests, allocator).Ok?
    case Cancel => s.loop != Down
    case Crash => true
    case Start => s.loop == Down
  }

  ghost predicate LoopEnabled(s: State, a: LoopAction) {
    match a
    case Take => s.loop == Top && s.free > 0
    case Halt(byError) =>
      && (s.loop == Top || s.loop == Holding || s.loop == Polling)
      && (if byError then s.errorBuffered else s.cancelled)
    case Pass => s.loop == Holding && !s.cancelled && !s.errorBuffered
    case ClaimFails => s.loop == Claiming
    case ClaimNone => s.loop == Claiming && forall id :: id in s.cells ==> !Runnable(s.cells[id], s.now)
    case ClaimCell(id, k) =>
      s.loop == Claiming && id in s.cells && Runnable(s.cells[id], s.now) && k !in s.dispatches
    case PollOver => s.loop == Polling
    case Finish => s.loop == Stopping && s.dispatches == map[]
  }

  ghost predicate WorkerEnabled(s: State, k: nat, a: WorkerAction)
    requires k in s.dispatches
  {
    var d := s.dispatches[k];
    match a
    case Refuse => d.phase.Running?
    case Execute(_) => d.phase.Running? && 0 <= d.claimed.currentStep < |d.claimed.steps|
    case Apply(allocator) =>
      && d.phase.Answered? && Storable(d.phase.result)
      && ApplyResult(s.cells, d.claimed, d.phase.result, true, allocator, s.now).Ok?
    case ApplyFails => d.phase.Answered? && Storable(d.phase.result)
    case Report => d.phase.Answered? && !Storable(d.phase.result)
    case EndDispatch => d.phase.Ended?
    case ReturnToken => d.phase.Returning?
    case Release => d.phase.Releasing?
  }

  ghost predicate Enabled(s: State, a: Action) {
    match a
    case Outside(outside) => OutsideEnabled(s, outside)
    case Scheduler(move) => LoopEnabled(s, move)
    case Worker(k, work) => k in s.dispatches && WorkerEnabled(s, k, work)
  }

  /** A new cell enters the log with the cell whose result asked for it, if any. */
  function AdditionOf(r: Request<Payload>, parent: Option<CellId>): Event {
    Added(r.id, r.notBefore, parent, |r.steps|)
  }

  function AddedEvents(added: seq<Request<Payload>>, parent: Option<CellId>): seq<Event> {
    seq(|added|, i requires 0 <= i < |added| => AdditionOf(added[i], parent))
  }

  function ResultEvent(cell: Cell<Payload>, result: HandlerResult, now: Time): Event
    requires Storable(result)
  {
    match result
    case Complete(_, _) => Completed(cell.id, cell.currentStep, cell.currentStep + 1 == |cell.steps|)
    case Retry(retryAt, _, _) => Retried(cell.id, retryAt)
    case RetrySequence(delay, _, _) => Restarted(cell.id, Some(now + delay))
    case Kill(_, _) => Killed(cell.id)
  }

  function Conclude(s: State, k: nat, failed: bool, standing: Standing): State
    requires k in s.dispatches
  {
    var d := s.dispatches[k];
    s.(dispatches := s.dispatches[k := d.(phase := Ended(failed))],
       standings := s.standings[d.claimed.id := standing])
  }

  ghost function OutsideStep(s: State, a: OutsideAction): State
    requires OutsideEnabled(s, a)
  {
    match a
    case Elapse(duration) => s.(now := s.now + duration)
    case Submit(requests, allocator) =>
      s.(cells := Add(s.cells, requests, allocator).value,
         log := s.log + AddedEvents(Additions(s.cells.Keys, requests, allocator).value, None))
    case Cancel => s.(cancelled := true)
    case Crash => s.(loop := Down, dispatches := map[], standings := map[])
    case Start =>
      s.(loop := Top, cells := Recover(s.cells), free := s.workers, errorBuffered := false, cancelled := false,
         failed := false, dispatches := map[], standings := map[])
  }

  ghost function LoopStep(s: State, a: LoopAction): State
    requires LoopEnabled(s, a)
  {
    match a
    case Take => s.(loop := Holding, free := s.free - 1)
    case Halt(byError) =>
      s.(loop := Stopping, cancelled := true, failed := byError,
         errorBuffered := if byError then false else s.errorBuffered,
         free := if s.loop == Holding then s.free + 1 else s.free)
    case Pass => s.(loop := Claiming)
    case ClaimFails => s.(loop := Stopping, cancelled := true, failed := true, free := s.free + 1)
    case ClaimNone => s.(loop := Polling, free := s.free + 1)
    case ClaimCell(id, k) =>
      s.(loop := Top, cells := Claim(s.cells, id),
         dispatches := s.dispatches[k := Dispatch(Claim(s.cells, id)[id], Running)],
         standings := s.standings[id := InFlight(k)])
    case PollOver => s.(loop := Top)
    case Finish =>
      s.(loop := Returned, failed := s.failed || s.errorBuffered, errorBuffered := s.failed && s.errorBuffered)
  }

  ghost function WorkerStep(s: State, k: nat, a: WorkerAction): State
    requires k in s.dispatches && WorkerEnabled(s, k, a)
  {
    var d := s.dispatches[k];
    match a
    case Refuse => Conclude(s, k, true, Broke)
    case Execute(result) =>
      s.(dispatches := s.dispatches[k := d.(phase := Answered(result))],
         log := s.log + [Executed(d.claimed.id, d.claimed.currentStep, s.now)])
    case Apply(allocator) =>
      Conclude(s, k, false, Worked).(
        cells := ApplyResult(s.cells, d.claimed, d.phase.result, true, allocator, s.now).value,
        log := s.log + [ResultEvent(d.claimed, d.phase.result, s.now)]
                     + AddedEvents(Additions(s.cells.Keys, d.phase.result.newCells, allocator).value, Some(d.claimed.id)))
    case ApplyFails => Conclude(s, k, true, Broke)
    case Report =>
      if d.phase.result.ErrorResult? then Conclude(s, k, true, Broke) else Conclude(s, k, false, Ignored)
    case EndDispatch =>
      s.(dispatches := s.dispatches[k := d.(phase := Returning)],
         errorBuffered := s.errorBuffered || d.phase.failed)
    case ReturnToken => s.(dispatches := s.dispatches[k := d.(phase := Releasing)], free := s.free + 1)
    case Release => s.(dispatches := s.dispatches - {k})
  }

  ghost function Perform(s: State, a: Action): State
    requires Enabled(s, a)
  {
    match a
    case Outside(outside) => OutsideStep(s, outside)
    case Scheduler(move) => LoopStep(s, move)
    case Worker(k, work) => WorkerStep(s, k, work)
  }

  function Initial(workers: nat, now: Time): State {
    State(workers, map[], now, Down, workers, false, false, false, map[], map[], [])
  }

  // ----- Runs -----

  ghost predicate IsRun(s: State, actions: seq<Action>)
    decreases |actions|
  {
    actions == [] || (Enabled(s, actions[0]) && IsRun(Perform(s, actions[0]), actions[1..]))
  }

  ghost function After(s: State, actions: seq<Action>): State
    requires IsRun(s, actions)
    decreases |actions|
  {
    if actions == [] then s else After(Perform(s, actions[0]), actions[1..])
  }

  // ----- Reading the log -----

  /** The step a cell stands at according to the log alone; None when it does not exist. */
  function Position(log: seq<Event>, id: CellId): Option<int> {
    if log == [] then None
    else
      var e, before := log[|log| - 1], log[..|log| - 1];
      if e.id != id then Position(before, id)
      else match e
        case Added(_, _, _, _) => Some(0)
        case Completed(_, step, isLast) => if isLast then None else Some(step + 1)
        case Restarted(_, _) => Some(0)
        case Killed(_) => None
        case Executed(_, _, _) => Position(before, id)
        case Retried(_, _) => Position(before, id)
  }

  /** The earliest run time last recorded for a cell in the log. */
  function Earliest(log: seq<Event>, id: CellId): Option<Time> {
    if log == [] then None
    else
      var e, before := log[|log| - 1], log[..|log| - 1];
      if e.id == id && (e.Added? || e.Retried? || e.Restarted?) then e.notBefore
      else Earliest(before, id)
  }

  /** How many steps a cell was last added with. */
  function Length(log: seq<Event>, id: CellId): nat {
    if log == [] then 0
    else
      var e, before := log[|log| - 1], log[..|log| - 1];
      if e.id == id && e.Added? then e.length else Length(before, id)
  }

  /** The event applies a result of cell `p`. */
  predicate AppliesResult(e: Event, p: CellId) {
    e.id == p && (e.Completed? || e.Retried? || e.Restarted? || e.Killed?)
  }

  /** A child of `p` is logged right after the result of `p` or after another such child. */
  predicate Begets(before: seq<Event>, p: CellId) {
    before != [] &&
    var e := before[|before| - 1];
    AppliesResult(e, p) || (e.Added? && e.parent == Some(p))
  }

  /** An event respects the log before it. */
  predicate Respects(before: seq<Event>, e: Event) {
    match e
    case Executed(id, step, at) =>
      && Position(before, id) == Some(step)
      && (Earliest(before, id).Some? ==> Earliest(before, id).value <= at)
    case Completed(id, step, isLast) =>
      Position(before, id) == Some(step) && (isLast <==> step + 1 == Length(before, id))
    case Restarted(id, _) => Position(before, id).Some?
    case Retried(id, _) => Position(before, id).Some?
    case Killed(id) => Position(before, id).Some?
    case Added(id, _, parent, _) =>
      Position(before, id).None? && (parent.Some? ==> parent.value != id && Begets(before, parent.value))
  }

  /** Every event respects the log before it. */
  predicate Lawful(log: seq<Event>) {
    log == [] || (Lawful(log[..|log| - 1]) && Respects(log[..|log| - 1], log[|log| - 1]))
  }

  lemma LawfulExtended(log: seq<Event>, e: Event)
    requires Lawful(log) && Respects(log, e)
    ensures Lawful(log + [e])
  {
    assert (log + [e])[..|log|] == log;
  }

  lemma {:induction false} LawfulAt(log: seq<Event>, n: nat)
    requires Lawful(log) && n < |log|
    ensures Lawful(log[..n]) && Respects(log[..n], log[n])
    decreases |log|
  {
    if n < |log| - 1 {
      LawfulAt(log[..|log| - 1], n);
      assert log[..|log| - 1][..n] == log[..n];
    }
  }

  /** Reading past one more addition. */
  lemma AdditionRead(log: seq<Event>, r: Request<Payload>, parent: Option<CellId>, id: CellId)
    ensures var after := log + [AdditionOf(r, parent)];
      if id == r.id then
        Position(after, id) == Some(0) && Earliest(after, id) == r.notBefore && Length(after, id) == |r.steps|
      else
        && Position(after, id) == Position(log, id) && Earliest(after, id) == Earliest(log, id)
        && Length(after, id) == Length(log, id)
  {
    var after := log + [AdditionOf(r, parent)];
    assert after[..|after| - 1] == log;
  }

  lemma AddedEventsSplit(log: seq<Event>, added: seq<Request<Payload>>, parent: Option<CellId>)
    requires added != []
    ensures log + AddedEvents(added, parent) == log + [AdditionOf(added[0], parent)] + AddedEvents(added[1..], parent)
  {
    assert AddedEvents(added, parent) == [AdditionOf(added[0], parent)] + AddedEvents(added[1..], parent);
  }

  /** What the log says of a cell added by a request. */
  ghost predicate Entered(log: seq<Event>, r: Request<Payload>) {
    Position(log, r.id) == Some(0) && Earliest(log, r.id) == r.notBefore && Length(log, r.id) == |r.steps|
  }

  /** Two logs say the same of a cell. */
  ghost predicate SameOf(log: seq<Event>, after: seq<Event>, id: CellId) {
    && Position(after, id) == Position(log, id) && Earliest(after, id) == Earliest(log, id)
    && Length(after, id) == Length(log, id)
  }

  lemma {:induction false} AddedEventsRead(
    log: seq<Event>, added: seq<Request<Payload>>, parent: Option<CellId>, id: CellId)
    requires forall i, j :: 0 <= i < j < |added| ==> added[i].id != added[j].id
    ensures var after := log + AddedEvents(added, parent);
      && (forall i :: 0 <= i < |added| && added[i].id == id ==> Entered(after, added[i]))
      && ((forall i :: 0 <= i < |added| ==> added[i].id != id) ==> SameOf(log, after, id))
    decreases |added|
  {
    if added == [] {
      assert log + AddedEvents(added, parent) == log;
    } else {
      var next, tail := log + [AdditionOf(added[0], parent)], added[1..];
      AdditionRead(log, added[0], parent, id);
      AddedEventsSplit(log, added, parent);
      assert forall i :: 0 <= i < |tail| ==> tail[i] == added[i + 1];
      AddedEventsRead(next, tail, parent, id);
      forall i | 0 <= i < |added| && added[i].id == id ensures Entered(log + AddedEvents(added, parent), added[i]) {
        if i > 0 { assert tail[i - 1].id == id; }
      }
    }
  }

  lemma {:induction false} AddedEventsLawful(log: seq<Event>, added: seq<Request<Payload>>, parent: Option<CellId>)
    requires Lawful(log) && (parent.Some? ==> Begets(log, parent.value))
    requires forall i :: 0 <= i < |added| ==> Position(log, added[i].id).None? && parent != Some(added[i].id)
    requires forall i, j :: 0 <= i < j < |added| ==> added[i].id != added[j].id
    ensures Lawful(log + AddedEvents(added, parent))
    decreases |added|
  {
    if added == [] {
      assert log + AddedEvents(added, parent) == log;
    } else {
      var e, tail := AdditionOf(added[0], parent), added[1..];
      LawfulExtended(log, e);
      AddedEventsSplit(log, added, parent);
      forall i | 0 <= i < |tail| ensures Position(log + [e], tail[i].id).None? {
        assert tail[i] == added[i + 1];
        AdditionRead(log, added[0], parent, tail[i].id);
      }
      AddedEventsLawful(log + [e], tail, parent);
    }
  }

  // ----- The invariant -----

  predicate Live(d: Dispatch) { d.phase.Running? || d.phase.Answered? }

  /** Dispatches that still owe the scheduler a token. */
  function Owing(dispatches: map<nat, Dispatch>): set<nat> {
    set k | k in dispatches && !dispatches[k].phase.Releasing?
  }

  predicate HoldsToken(loop: Loop) { loop == Holding || loop == Claiming }

  ghost predicate TokensBalance(workers: nat, loop: Loop, free: int, dispatches: map<nat, Dispatch>) {
    free >= 0 && free + (if HoldsToken(loop) then 1 else 0) + |Owing(dispatches)| == workers
  }

  /** A live dispatch owns its cell, exactly as it was claimed and not before its time. */
  ghost predicate Owns(cells: CellMap<Payload>, standings: map<CellId, Standing>, now: Time, k: nat, c: Cell<Payload>) {
    && c.id in cells && cells[c.id] == c && c.state == Claimed
    && c.id in standings && standings[c.id] == InFlight(k)
    && (c.notBefore.Some? ==> c.notBefore.value <= now)
  }

  /** A cell is claimed exactly when it is in flight or its last dispatch left it so. */
  ghost predicate Accounted(
    cells: CellMap<Payload>, dispatches: map<nat, Dispatch>, standings: map<CellId, Standing>, id: CellId)
  {
    && (id in standings && standings[id].InFlight? ==>
          var k := standings[id].dispatch;
          k in dispatches && Live(dispatches[k]) && dispatches[k].claimed.id == id)
    && (id in cells && cells[id].state == Claimed <==> id in standings && !standings[id].Worked?)
  }

  ghost predicate Ownership(
    cells: CellMap<Payload>, dispatches: map<nat, Dispatch>, standings: map<CellId, Standing>, now: Time)
  {
    && (forall k :: k in dispatches && Live(dispatches[k]) ==> Owns(cells, standings, now, k, dispatches[k].claimed))
    && (forall id :: Accounted(cells, dispatches, standings, id))
  }

  ghost predicate LogMatchesCell(cells: CellMap<Payload>, log: seq<Event>, id: CellId) {
    && (id in cells <==> Position(log, id).Some?)
    && (id in cells ==>
          && Position(log, id) == Some(cells[id].currentStep) && Earliest(log, id) == cells[id].notBefore
          && Length(log, id) == |cells[id].steps|)
  }

  ghost predicate LogMatches(cells: CellMap<Payload>, log: seq<Event>) {
    Lawful(log) && forall id :: LogMatchesCell(cells, log, id)
  }

  lemma LogStillMatches(cells: CellMap<Payload>, log: seq<Event>, after: CellMap<Payload>)
    requires LogMatches(cells, log) && after.Keys == cells.Keys
    requires forall id :: id in cells ==>
      && after[id].currentStep == cells[id].currentStep && after[id].notBefore == cells[id].notBefore
      && after[id].steps == cells[id].steps
    ensures LogMatches(after, log)
  {
    forall id ensures LogMatchesCell(after, log, id) { assert LogMatchesCell(cells, log, id); }
  }

  ghost predicate Inv(s: State) {
    && WellFormed(s.cells)
    && LogMatches(s.cells, s.log)
    && ((s.loop == Down || s.loop == Returned) ==> s.dispatches == map[])
    && (s.loop != Down ==>
          && TokensBalance(s.workers, s.loop, s.free, s.dispatches)
          && Ownership(s.cells, s.dispatches, s.standings, s.now))
  }

  // ----- Every action keeps the invariant -----

  lemma OwingChanged(dispatches: map<nat, Dispatch>, k: nat, d: Dispatch)
    requires k in dispatches
    ensures |Owing(dispatches[k := d])| == |Owing(dispatches)|
      + (if dispatches[k].phase.Releasing? && !d.phase.Releasing? then 1
         else if !dispatches[k].phase.Releasing? && d.phase.Releasing? then -1 else 0)
  {
    var before, after := Owing(dispatches), Owing(dispatches[k := d]);
    if k in before && k !in after { assert after == before - {k}; }
    else if k !in before && k in after { assert after == before + {k}; }
    else { assert after == before; }
  }

  lemma OwingAdded(dispatches: map<nat, Dispatch>, k: nat, d: Dispatch)
    requires k !in dispatches && !d.phase.Releasing?
    ensures |Owing(dispatches[k := d])| == |Owing(dispatches)| + 1
  {
    assert Owing(dispatches[k := d]) == Owing(dispatches) + {k};
  }

  /** Adding cells while logging their additions keeps log and cells in step. */
  lemma InsertMatchesLog(cells: CellMap<Payload>, log: seq<Event>, added: seq<Request<Payload>>, parent: Option<CellId>)
    requires LogMatches(cells, log) && (parent.Some? ==> Begets(log, parent.value))
    requires forall i :: 0 <= i < |added| ==> added[i].id !in cells && parent != Some(added[i].id)
    requires forall i, j :: 0 <= i < j < |added| ==> added[i].id != added[j].id
    ensures LogMatches(Insert(cells, added), log + AddedEvents(added, parent))
  {
    var after, events := Insert(cells, added), log + AddedEvents(added, parent);
    InsertContents(cells, added);
    assert forall i :: 0 <= i < |added| ==> LogMatchesCell(cells, log, added[i].id);
    AddedEventsLawful(log, added, parent);
    forall id ensures LogMatchesCell(after, events, id) {
      AddedEventsRead(log, added, parent, id);
      assert LogMatchesCell(cells, log, id);
      if i :| 0 <= i < |added| && added[i].id == id {
        assert after[added[i].id] == NewCell(added[i]);
        assert Entered(events, added[i]);
      }
    }
  }

  /** The claimed cell's own transition and its event say the same. */
  lemma SettleMatchesLog(cells: CellMap<Payload>, log: seq<Event>, cell: Cell<Payload>, result: HandlerResult, now: Time)
    requires WellFormed(cells) && LogMatches(cells, log) && cell.id in cells && cells[cell.id] == cell
    requires Storable(result)
    ensures LogMatches(Settle(cells, cell, result, now), log + [ResultEvent(cell, result, now)])
  {
    var e := ResultEvent(cell, result, now);
    var after, events := Settle(cells, cell, result, now), log + [e];
    assert events[|log|] == e && events[..|log|] == log;
    assert LogMatchesCell(cells, log, cell.id);
    LawfulExtended(log, e);
    forall id ensures LogMatchesCell(after, events, id) { assert LogMatchesCell(cells, log, id); }
  }

  /** New ready cells take nothing from a live dispatch. */
  lemma InsertKeepsOwnership(
    cells: CellMap<Payload>, dispatches: map<nat, Dispatch>, standings: map<CellId, Standing>, now: Time,
    added: seq<Request<Payload>>)
    requires Ownership(cells, dispatches, standings, now)
    requires forall i :: 0 <= i < |added| ==>
      added[i].id !in cells && (added[i].id in standings ==> standings[added[i].id].Worked?)
    requires forall i, j :: 0 <= i < j < |added| ==> added[i].id != added[j].id
    ensures Ownership(Insert(cells, added), dispatches, standings, now)
  {
    InsertContents(cells, added);
    var after := Insert(cells, added);
    forall id ensures Accounted(after, dispatches, standings, id) {
      assert Accounted(cells, dispatches, standings, id);
      if i :| 0 <= i < |added| && added[i].id == id {
        assert after[added[i].id] == NewCell(added[i]);
      }
    }
  }

  lemma OutsideKeepsInv(s: State, a: OutsideAction)
    requires Inv(s) && OutsideEnabled(s, a)
    ensures Inv(OutsideStep(s, a))
  {
    var t := OutsideStep(s, a);
    match a
    case Submit(requests, allocator) =>
      var added := Additions(s.cells.Keys, requests, allocator).value;
      AddKeepsWellFormed(s.cells, requests, allocator);
      AdditionsFacts(s.cells.Keys, requests, allocator);
      InsertMatchesLog(s.cells, s.log, added, None);
      if s.loop != Down {
        assert forall i :: 0 <= i < |added| ==> Accounted(s.cells, s.dispatches, s.standings, added[i].id);
        InsertKeepsOwnership(s.cells, s.dispatches, s.standings, s.now, added);
      }
    case Start =>
      assert Owing(t.dispatches) == {};
      LogStillMatches(s.cells, s.log, t.cells);
    case _ =>
  }

  lemma ClaimKeepsOwnership(
    cells: CellMap<Payload>, dispatches: map<nat, Dispatch>, standings: map<CellId, Standing>, now: Time,
    id: CellId, k: nat)
    requires WellFormed(cells) && Ownership(cells, dispatches, standings, now)
    requires id in cells && Runnable(cells[id], now) && k !in dispatches
    ensures var after := Claim(cells, id);
      Ownership(after, dispatches[k := Dispatch(after[id], Running)], standings[id := InFlight(k)], now)
  {
    assert Accounted(cells, dispatches, standings, id);
    var claimed := Claim(cells, id);
    var after, stand := dispatches[k := Dispatch(claimed[id], Running)], standings[id := InFlight(k)];
    forall other ensures Accounted(claimed, after, stand, other) {
      assert Accounted(cells, dispatches, standings, other);
    }
  }

  /** A dispatch that ends without applying a result leaves its cell claimed. */
  lemma ConcludeKeepsOwnership(
    cells: CellMap<Payload>, dispatches: map<nat, Dispatch>, standings: map<CellId, Standing>, now: Time,
    k: nat, failed: bool, standing: Standing)
    requires Ownership(cells, dispatches, standings, now)
    requires k in dispatches && Live(dispatches[k]) && (standing.Broke? || standing.Ignored?)
    ensures Ownership(cells, dispatches[k := dispatches[k].(phase := Ended(failed))],
                      standings[dispatches[k].claimed.id := standing], now)
  {
    var d := dispatches[k];
    assert Owns(cells, standings, now, k, d.claimed);
    var after, stand := dispatches[k := d.(phase := Ended(failed))], standings[d.claimed.id := standing];
    forall id ensures Accounted(cells, after, stand, id) { assert Accounted(cells, dispatches, standings, id); }
  }

  /** Moving a dispatch between phases of the same liveness changes no ownership. */
  lemma PhaseKeepsOwnership(
    cells: CellMap<Payload>, dispatches: map<nat, Dispatch>, standings: map<CellId, Standing>, now: Time,
    k: nat, phase: Phase)
    requires Ownership(cells, dispatches, standings, now)
    requires k in dispatches && (Live(dispatches[k]) <==> Live(dispatches[k].(phase := phase)))
    ensures Ownership(cells, dispatches[k := dispatches[k].(phase := phase)], standings, now)
  {
    var after := dispatches[k := dispatches[k].(phase := phase)];
    forall id ensures Accounted(cells, after, standings, id) { assert Accounted(cells, dispatches, standings, id); }
  }

  lemma ReleaseKeepsOwnership(
    cells: CellMap<Payload>, dispatches: map<nat, Dispatch>, standings: map<CellId, Standing>, now: Time, k: nat)
    requires Ownership(cells, dispatches, standings, now)
    requires k in dispatches && !Live(dispatches[k])
    ensures Ownership(cells, dispatches - {k}, standings, now)
  {
    forall id ensures Accounted(cells, dispatches - {k}, standings, id) {
      assert Accounted(cells, dispatches, standings, id);
    }
  }

  lemma SettleKeepsOwnership(
    cells: CellMap<Payload>, dispatches: map<nat, Dispatch>, standings: map<CellId, Standing>, now: Time,
    k: nat, result: HandlerResult)
    requires WellFormed(cells) && Ownership(cells, dispatches, standings, now)
    requires k in dispatches && Live(dispatches[k]) && Storable(result)
    ensures var d := dispatches[k];
      Ownership(Settle(cells, d.claimed, result, now), dispatches[k := d.(phase := Ended(false))],
                standings[d.claimed.id := Worked], now)
  {
    var d := dispatches[k];
    assert Owns(cells, standings, now, k, d.claimed);
    var settled := Settle(cells, d.claimed, result, now);
    var after, stand := dispatches[k := d.(phase := Ended(false))], standings[d.claimed.id := Worked];
    assert d.claimed.id in settled ==> settled[d.claimed.id].state == Ready;
    assert settled - {d.claimed.id} == cells - {d.claimed.id};
    forall id ensures Accounted(settled, after, stand, id) {
      assert Accounted(cells, dispatches, standings, id);
      assert id != d.claimed.id ==> (id in settled <==> id in settled - {d.claimed.id});
    }
    forall m | m in after && Live(after[m]) ensures Owns(settled, stand, now, m, after[m].claimed) {
      assert Owns(cells, standings, now, m, dispatches[m].claimed);
      assert after[m].claimed.id in settled - {d.claimed.id};
    }
  }

  lemma LoopKeepsTokens(s: State, a: LoopAction)
    requires LoopEnabled(s, a) && TokensBalance(s.workers, s.loop, s.free, s.dispatches)
    ensures var t := LoopStep(s, a); TokensBalance(t.workers, t.loop, t.free, t.dispatches)
  {
    if a.ClaimCell? {
      OwingAdded(s.dispatches, a.dispatch, LoopStep(s, a).dispatches[a.dispatch]);
    }
  }

  lemma ClaimKeepsInv(s: State, id: CellId, k: nat)
    requires Inv(s) && LoopEnabled(s, ClaimCell(id, k))
    ensures Inv(LoopStep(s, ClaimCell(id, k)))
  {
    LoopKeepsTokens(s, ClaimCell(id, k));
    LogStillMatches(s.cells, s.log, LoopStep(s, ClaimCell(id, k)).cells);
    ClaimKeepsOwnership(s.cells, s.dispatches, s.standings, s.now, id, k);
  }

  lemma LoopKeepsInv(s: State, a: LoopAction)
    requires Inv(s) && LoopEnabled(s, a)
    ensures Inv(LoopStep(s, a))
  {
    if a.ClaimCell? {
      ClaimKeepsInv(s, a.id, a.dispatch);
    } else {
      LoopKeepsTokens(s, a);
    }
  }

  lemma WorkerKeepsTokens(s: State, k: nat, a: WorkerAction)
    requires k in s.dispatches && WorkerEnabled(s, k, a)
    requires TokensBalance(s.workers, s.loop, s.free, s.dispatches)
    ensures var t := WorkerStep(s, k, a); TokensBalance(t.workers, t.loop, t.free, t.dispatches)
  {
    var t := WorkerStep(s, k, a);
    if a.Release? {
      assert Owing(t.dispatches) == Owing(s.dispatches);
    } else {
      OwingChanged(s.dispatches, k, t.dispatches[k]);
    }
  }

  lemma WorkerKeepsOwnership(s: State, k: nat, a: WorkerAction)
    requires Inv(s) && k in s.dispatches && WorkerEnabled(s, k, a) && !a.Apply?
    ensures var t := WorkerStep(s, k, a); Ownership(t.cells, t.dispatches, t.standings, t.now)
  {
    match a
    case Execute(result) => PhaseKeepsOwnership(s.cells, s.dispatches, s.standings, s.now, k, Answered(result));
    case EndDispatch => PhaseKeepsOwnership(s.cells, s.dispatches, s.standings, s.now, k, Returning);
    case ReturnToken => PhaseKeepsOwnership(s.cells, s.dispatches, s.standings, s.now, k, Releasing);
    case Release => ReleaseKeepsOwnership(s.cells, s.dispatches, s.standings, s.now, k);
    case Report =>
      var broke := s.dispatches[k].phase.result.ErrorResult?;
      ConcludeKeepsOwnership(s.cells, s.dispatches, s.standings, s.now, k, broke, if broke then Broke else Ignored);
    case _ => ConcludeKeepsOwnership(s.cells, s.dispatches, s.standings, s.now, k, true, Broke);
  }

  lemma WorkerKeepsInv(s: State, k: nat, a: WorkerAction)
    requires Inv(s) && k in s.dispatches && WorkerEnabled(s, k, a)
    ensures Inv(WorkerStep(s, k, a))
  {
    WorkerKeepsTokens(s, k, a);
    if a.Apply? {
      ApplyKeepsInv(s, k, a.allocator);
    } else {
      WorkerKeepsOwnership(s, k, a);
      if a.Execute? {
        ExecuteKeepsLog(s, k, a.result);
      }
    }
  }

  lemma ExecuteKeepsLog(s: State, k: nat, result: HandlerResult)
    requires Inv(s) && k in s.dispatches && WorkerEnabled(s, k, Execute(result))
    ensures var t := WorkerStep(s, k, Execute(result)); LogMatches(t.cells, t.log)
  {
    var t := WorkerStep(s, k, Execute(result));
    var e := t.log[|s.log|];
    assert LogMatchesCell(s.cells, s.log, s.dispatches[k].claimed.id);
    LawfulExtended(s.log, e);
    assert t.log[..|s.log|] == s.log;
    forall id ensures LogMatchesCell(t.cells, t.log, id) { assert LogMatchesCell(s.cells, s.log, id); }
  }

  lemma ApplyKeepsInv(s: State, k: nat, allocator: Allocator)
    requires Inv(s) && k in s.dispatches && WorkerEnabled(s, k, Apply(allocator))
    ensures var t := WorkerStep(s, k, Apply(allocator));
      WellFormed(t.cells) && LogMatches(t.cells, t.log) && Ownership(t.cells, t.dispatches, t.standings, t.now)
  {
    var d := s.dispatches[k];
    assert Live(d);
    var t := WorkerStep(s, k, Apply(allocator));
    var added := Additions(s.cells.Keys, d.phase.result.newCells, allocator).value;
    var settled := Settle(s.cells, d.claimed, d.phase.result, s.now);
    AdditionsFacts(s.cells.Keys, d.phase.result.newCells, allocator);
    ApplyResultKeepsWellFormed(s.cells, d.claimed, d.phase.result, true, allocator, s.now);
    SettleMatchesLog(s.cells, s.log, d.claimed, d.phase.result, s.now);
    InsertMatchesLog(settled, s.log + [ResultEvent(d.claimed, d.phase.result, s.now)], added, Some(d.claimed.id));
    SettleKeepsOwnership(s.cells, s.dispatches, s.standings, s.now, k, d.phase.result);
    assert forall i :: 0 <= i < |added| ==> Accounted(s.cells, s.dispatches, s.standings, added[i].id);
    InsertKeepsOwnership(settled, t.dispatches, t.standings, t.now, added);
  }

  lemma StepKeepsInv(s: State, a: Action)
    requires Inv(s) && Enabled(s, a)
    ensures Inv(Perform(s, a))
  {
    match a
    case Outside(outside) => OutsideKeepsInv(s, outside);
    case Scheduler(move) => LoopKeepsInv(s, move);
    case Worker(k, work) => WorkerKeepsInv(s, k, work);
  }

  lemma {:induction false} RunKeepsInv(s: State, actions: seq<Action>)
    requires Inv(s) && IsRun(s, actions)
    ensures Inv(After(s, actions))
    decreases |actions|
  {
    if actions != [] {
      StepKeepsInv(s, actions[0]);
      RunKeepsInv(Perform(s, actions[0]), actions[1..]);
    }
  }

  // ----- Theorems about every run -----

  /** Tokens are conserved, so giving one back never finds the channel full. */
  lemma TokensConserved(workers: nat, now: Time, actions: seq<Action>)
    requires IsRun(Initial(workers, now), actions)
    ensures var s := After(Initial(workers, now), actions);
      && (s.loop != Down ==>
            s.free + (if HoldsToken(s.loop) then 1 else 0) + |Owing(s.dispatches)| == s.workers)
      && (s.loop != Down && HoldsToken(s.loop) ==> s.free < s.workers)
      && (forall k :: k in s.dispatches && s.dispatches[k].phase.Returning? ==> s.free < s.workers)
  {
    RunKeepsInv(Initial(workers, now), actions);
    var s := After(Initial(workers, now), actions);
    forall k | k in s.dispatches && s.dispatches[k].phase.Returning? ensures s.free < s.workers {
      assert k in Owing(s.dispatches);
    }
  }

  /** No cell is ever being dispatched twice at the same time. */
  lemma NeverDispatchedTwice(
    workers: nat, now: Time, actions: seq<Action>, k: nat, m: nat)
    requires IsRun(Initial(workers, now), actions)
    requires var s := After(Initial(workers, now), actions);
      && k in s.dispatches && m in s.dispatches && k != m
      && Live(s.dispatches[k]) && Live(s.dispatches[m])
    ensures var s := After(Initial(workers, now), actions);
      s.dispatches[k].claimed.id != s.dispatches[m].claimed.id
  {
    RunKeepsInv(Initial(workers, now), actions);
    var s := After(Initial(workers, now), actions);
    assert Owns(s.cells, s.standings, s.now, k, s.dispatches[k].claimed);
  }

  /** When the scheduler has returned nothing is running, and the cells still
      claimed are exactly those whose last dispatch failed or whose handler
      answered with a value the result applier does not recognise. */
  lemma ClaimedAfterReturn(workers: nat, now: Time, actions: seq<Action>)
    requires IsRun(Initial(workers, now), actions)
    requires After(Initial(workers, now), actions).loop == Returned
    ensures var s := After(Initial(workers, now), actions);
      && s.dispatches == map[]
      && forall id :: id in s.cells ==>
           (s.cells[id].state == Claimed <==>
              id in s.standings && (s.standings[id].Broke? || s.standings[id].Ignored?))
  {
    RunKeepsInv(Initial(workers, now), actions);
    var s := After(Initial(workers, now), actions);
    assert forall id :: id in s.cells ==> Accounted(s.cells, s.dispatches, s.standings, id);
  }

  /** A handler answer outside the five result kinds fails no dispatch, yet its
      cell stays claimed and no error reaches the scheduler. */
  lemma UnrecognisedLeavesClaimed(s: State, k: nat)
    requires Inv(s) && k in s.dispatches && WorkerEnabled(s, k, Execute(Unrecognised))
    ensures var executed := WorkerStep(s, k, Execute(Unrecognised));
      WorkerEnabled(executed, k, Report) &&
      var reported := WorkerStep(executed, k, Report);
      && WorkerEnabled(reported, k, EndDispatch) && reported.dispatches[k].phase == Ended(false)
      && WorkerStep(reported, k, EndDispatch).errorBuffered == s.errorBuffered
      && var id := s.dispatches[k].claimed.id;
         id in reported.cells && reported.cells[id].state == Claimed && reported.standings[id] == Ignored
  {
    assert Live(s.dispatches[k]) && Owns(s.cells, s.standings, s.now, k, s.dispatches[k].claimed);
  }

  /** Event m completes step j of the cell, which has since been neither restarted nor replaced. */
  ghost predicate CompletedFor(log: seq<Event>, id: CellId, j: int, m: int) {
    && 0 <= m < |log| && log[m] == Completed(id, j, false)
    && forall n :: m < n < |log| && log[n].id == id ==> !log[n].Added? && !log[n].Restarted? && !log[n].Killed?
  }

  /** What the log shows of a cell's progress: it stands at step i only after
      completing every earlier step since it was added or last restarted. */
  lemma {:induction false} PositionEarned(log: seq<Event>, id: CellId, i: int, j: int)
    requires Lawful(log) && Position(log, id) == Some(i) && 0 <= j < i
    ensures exists m :: CompletedFor(log, id, j, m)
    decreases |log|
  {
    var last := |log| - 1;
    var e, before := log[last], log[..last];
    if e.id == id && e.Completed? && e.step == j {
      assert CompletedFor(log, id, j, last);
    } else {
      PositionEarned(before, id, if e.id == id && e.Completed? then i - 1 else i, j);
      var m :| CompletedFor(before, id, j, m);
      assert CompletedFor(log, id, j, m);
    }
  }

  /** In every run, crashes and restarts included, a step is executed at the
      position the cell stands at and never before the cell's earliest run time. */
  lemma NeverRunsEarly(workers: nat, now: Time, actions: seq<Action>, n: nat)
    requires IsRun(Initial(workers, now), actions)
    requires var log := After(Initial(workers, now), actions).log;
      n < |log| && log[n].Executed?
    ensures var log := After(Initial(workers, now), actions).log;
      && Position(log[..n], log[n].id) == Some(log[n].step)
      && (Earliest(log[..n], log[n].id).Some? ==> Earliest(log[..n], log[n].id).value <= log[n].at)
  {
    RunKeepsInv(Initial(workers, now), actions);
    LawfulAt(After(Initial(workers, now), actions).log, n);
  }

  /** In every run step i of a cell is executed only after steps 0..i-1 each
      completed since the cell was added or last restarted. */
  lemma StepsRunInOrder(workers: nat, now: Time, actions: seq<Action>, n: nat, j: int)
    requires IsRun(Initial(workers, now), actions)
    requires var log := After(Initial(workers, now), actions).log;
      n < |log| && log[n].Executed? && 0 <= j < log[n].step
    ensures var log := After(Initial(workers, now), actions).log;
      exists m :: CompletedFor(log[..n], log[n].id, j, m)
  {
    RunKeepsInv(Initial(workers, now), actions);
    var log := After(Initial(workers, now), actions).log;
    LawfulAt(log, n);
    PositionEarned(log[..n], log[n].id, log[n].step, j);
  }

  /** Applying a result removes no cell but a killed one or one whose last step completed. */
  lemma ApplyRemovesOnlyDone(s: State, k: nat, allocator: Allocator, id: CellId)
    requires Inv(s) && k in s.dispatches && WorkerEnabled(s, k, Apply(allocator))
    requires id in s.cells && id !in WorkerStep(s, k, Apply(allocator)).cells
    ensures s.dispatches[k].claimed.id == id
    ensures var result := s.dispatches[k].phase.result;
      result.Kill? || (result.Complete? && s.cells[id].currentStep == |s.cells[id].steps| - 1)
  {
    var d := s.dispatches[k];
    assert Live(d) && Owns(s.cells, s.standings, s.now, k, d.claimed);
    AdditionsFacts(s.cells.Keys, d.phase.result.newCells, allocator);
    InsertContents(Settle(s.cells, d.claimed, d.phase.result, s.now),
                   Additions(s.cells.Keys, d.phase.result.newCells, allocator).value);
  }

  lemma OutsideRemovesNothing(s: State, a: OutsideAction)
    requires OutsideEnabled(s, a)
    ensures s.cells.Keys <= OutsideStep(s, a).cells.Keys
  {
    if a.Submit? {
      AdditionsFacts(s.cells.Keys, a.requests, a.allocator);
      InsertContents(s.cells, Additions(s.cells.Keys, a.requests, a.allocator).value);
    }
  }

  lemma OtherWorkRemovesNothing(s: State, k: nat, a: WorkerAction)
    requires k in s.dispatches && WorkerEnabled(s, k, a) && !a.Apply?
    ensures WorkerStep(s, k, a).cells == s.cells
  {
  }

  lemma LoopRemovesNothing(s: State, a: LoopAction)
    requires LoopEnabled(s, a)
    ensures s.cells.Keys <= LoopStep(s, a).cells.Keys
  {
  }

  /** The action applies a kill, or the completion of the last step, of the cell. */
  ghost predicate Finishes(s: State, a: Action, id: CellId) {
    && a.Worker? && a.work.Apply? && a.dispatch in s.dispatches && s.dispatches[a.dispatch].phase.Answered?
    && s.dispatches[a.dispatch].claimed.id == id && id in s.cells
    && var result := s.dispatches[a.dispatch].phase.result;
       result.Kill? || (result.Complete? && s.cells[id].currentStep == |s.cells[id].steps| - 1)
  }

  /** A cell disappears only when its last step completes or it is killed. */
  lemma DisappearsOnlyWhenDone(s: State, a: Action, id: CellId)
    requires Inv(s) && Enabled(s, a)
    requires id in s.cells && id !in Perform(s, a).cells
    ensures Finishes(s, a, id)
  {
    match a
    case Outside(outside) => OutsideRemovesNothing(s, outside);
    case Scheduler(move) => LoopRemovesNothing(s, move);
    case Worker(k, work) =>
      if work.Apply? {
        ApplyRemovesOnlyDone(s, k, work.allocator, id);
      } else {
        OtherWorkRemovesNothing(s, k, work);
      }
  }

  /** Two completions of the last step of one cell id are separated by a fresh
      addition of that id. */
  lemma LastStepCompletesOnce(workers: nat, now: Time, actions: seq<Action>, m: nat, n: nat)
    requires IsRun(Initial(workers, now), actions)
    requires var log := After(Initial(workers, now), actions).log;
      m < n < |log| && log[m].Completed? && log[m].isLast && log[n].Completed? && log[n].id == log[m].id
    ensures var log := After(Initial(workers, now), actions).log;
      exists k :: m < k < n && log[k].Added? && log[k].id == log[m].id
  {
    RunKeepsInv(Initial(workers, now), actions);
    var log := After(Initial(workers, now), actions).log;
    LawfulAt(log, n);
    GoneUntilAdded(log, m, n);
  }

  lemma {:induction false} GoneUntilAdded(log: seq<Event>, m: nat, n: nat)
    requires Lawful(log) && m < n <= |log|
    requires (log[m].Completed? && log[m].isLast) || log[m].Killed?
    requires Position(log[..n], log[m].id).Some?
    ensures exists k :: m < k < n && log[k].Added? && log[k].id == log[m].id
    decreases n
  {
    var id := log[m].id;
    var e := log[n - 1];
    assert log[..n][n - 1] == e && log[..n][..n - 1] == log[..n - 1];
    LawfulAt(log, n - 1);
    if n - 1 != m && !(e.Added? && e.id == id) {
      GoneUntilAdded(log, m, n - 1);
    }
  }

  // ----- Children -----

  predicate ChildOf(e: Event, p: CellId) { e.Added? && e.parent == Some(p) }

  /** Events m+1..n are all children of `p`. */
  ghost predicate ChildrenSince(log: seq<Event>, p: CellId, m: int, n: int) {
    0 <= m <= n < |log| && forall i :: m < i <= n ==> ChildOf(log[i], p)
  }

  /** A child stands in the block of children directly after a result of its parent. */
  lemma {:induction false} BlockHead(log: seq<Event>, p: CellId, n: nat) returns (m: nat)
    requires Lawful(log) && n < |log| && ChildOf(log[n], p)
    ensures m < n && AppliesResult(log[m], p) && ChildrenSince(log, p, m, n)
    decreases n
  {
    LawfulAt(log, n);
    assert Begets(log[..n], p);
    if ChildOf(log[n - 1], p) {
      m := BlockHead(log, p, n - 1);
    } else {
      m := n - 1;
    }
  }

  /** As the log shows it, `p` is always added with a single step, and its results
      are completions: what a fanout cell does. */
  ghost predicate SingleStep(log: seq<Event>, p: CellId) {
    forall i :: 0 <= i < |log| && log[i].id == p ==>
      !log[i].Retried? && !log[i].Restarted? && !log[i].Killed? && (log[i].Added? ==> log[i].length == 1)
  }

  lemma {:induction false} LengthAdded(log: seq<Event>, p: CellId)
    requires SingleStep(log, p) && Position(log, p).Some? && Lawful(log)
    ensures Length(log, p) == 1
    decreases |log|
  {
    var before := log[..|log| - 1];
    var e := log[|log| - 1];
    if !(e.id == p && e.Added?) {
      LawfulAt(log, |log| - 1);
      assert SingleStep(before, p);
      LengthAdded(before, p);
    }
  }

  /** The result of a single-step cell is the completion of its last step. */
  lemma OnlyCompletes(log: seq<Event>, p: CellId, m: nat)
    requires Lawful(log) && SingleStep(log, p) && m < |log| && AppliesResult(log[m], p)
    ensures log[m].Completed? && log[m].isLast
  {
    LawfulAt(log, m);
    assert SingleStep(log[..m], p);
    LengthAdded(log[..m], p);
    PositionNatural(log[..m], p);
  }

  /** Positions stay below the number of steps. */
  lemma {:induction false} PositionNatural(log: seq<Event>, p: CellId)
    requires Lawful(log) && SingleStep(log, p) && Position(log, p).Some?
    ensures Position(log, p) == Some(0)
    decreases |log|
  {
    var e, before := log[|log| - 1], log[..|log| - 1];
    LawfulAt(log, |log| - 1);
    assert SingleStep(before, p);
    if e.id == p && e.Completed? {
      LengthAdded(before, p);
      PositionNatural(before, p);
    } else if !(e.id == p && e.Added?) {
      PositionNatural(before, p);
    }
  }

  /** In every run the children of a fanout cell are added only in the block
      directly after the completion of its one step, which removes it. */
  lemma ChildrenFollowCompletion(workers: nat, now: Time, actions: seq<Action>, p: CellId, n: nat) returns (m: nat)
    requires IsRun(Initial(workers, now), actions)
    requires var log := After(Initial(workers, now), actions).log;
      n < |log| && ChildOf(log[n], p) && SingleStep(log, p)
    ensures var log := After(Initial(workers, now), actions).log;
      m < n && log[m] == Completed(p, 0, true) && ChildrenSince(log, p, m, n)
  {
    RunKeepsInv(Initial(workers, now), actions);
    var log := After(Initial(workers, now), actions).log;
    m := BlockHead(log, p, n);
    OnlyCompletes(log, p, m);
    LawfulAt(log, m);
    assert SingleStep(log[..m], p);
    PositionNatural(log[..m], p);
  }

  /** Within a block no id is added twice. */
  lemma BlockDistinct(log: seq<Event>, p: CellId, m: nat, i: nat, j: nat)
    requires Lawful(log) && ChildrenSince(log, p, m, j) && m < i < j
    ensures log[i].id != log[j].id
  {
    LawfulAt(log, j);
    StillThere(log, p, m, i, j);
  }

  lemma {:induction false} StillThere(log: seq<Event>, p: CellId, m: nat, i: nat, j: nat)
    requires ChildrenSince(log, p, m, j) && m < i < j
    ensures Position(log[..j], log[i].id).Some?
    decreases j
  {
    assert log[..j][..j - 1] == log[..j - 1] && log[..j][j - 1] == log[j - 1];
    if i < j - 1 { StillThere(log, p, m, i, j - 1); }
  }

  /** In every run a fanout cell inserts its children at most once per addition of
      the cell: two children belong to one block and have different ids, or the
      cell was added again in between. */
  lemma ChildrenInsertedOnce(workers: nat, now: Time, actions: seq<Action>, p: CellId, i: nat, j: nat)
    requires IsRun(Initial(workers, now), actions)
    requires var log := After(Initial(workers, now), actions).log;
      i < j < |log| && ChildOf(log[i], p) && ChildOf(log[j], p) && SingleStep(log, p)
    ensures var log := After(Initial(workers, now), actions).log;
      || (ChildrenSince(log, p, i, j) && log[i].id != log[j].id)
      || (exists k :: i < k < j && log[k].Added? && log[k].id == p)
  {
    RunKeepsInv(Initial(workers, now), actions);
    var log := After(Initial(workers, now), actions).log;
    var m := ChildrenFollowCompletion(workers, now, actions, p, j);
    if m < i {
      BlockDistinct(log, p, m, i, j);
    } else {
      var first := ChildrenFollowCompletion(workers, now, actions, p, i);
      assert m != i;
      AddedAgain(log, p, first, i, m);
    }
  }

  /** Between the completion before one child and a later completion, the cell was
      added again, and not inside the first block. */
  lemma AddedAgain(log: seq<Event>, p: CellId, first: nat, i: nat, m: nat)
    requires Lawful(log) && SingleStep(log, p) && first < i < m < |log|
    requires log[first] == Completed(p, 0, true) && log[m] == Completed(p, 0, true) && ChildrenSince(log, p, first, i)
    ensures exists k :: i < k < m && log[k].Added? && log[k].id == p
  {
    LawfulAt(log, m);
    GoneUntilAdded(log, first, m);
    forall k | first < k <= i ensures log[k].id != p { LawfulAt(log, k); }
  }
}

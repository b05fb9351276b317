/** The durable cells managed by Cellar and the abstract effect of every store
    operation on them, independent of how a store represents its cells.

    A cell is an ordered list of handler steps. Only the step index, the
    lifecycle state and the earliest run time of a cell ever change. */
module Cells {
  import opened Basics

  type CellId = string

  datatype CellStep<P> = CellStep(handler: string, payload: P)

  datatype CellState = Ready | Claimed

  datatype Cell<P> = Cell(
    id: CellId, steps: seq<CellStep<P>>, currentStep: int, state: CellState, notBefore: Option<Time>)

  /** A request for a new cell; an empty id asks the store to allocate one. */
  datatype Request<P> = Request(id: CellId, steps: seq<CellStep<P>>, notBefore: Option<Time>)

  /** What a handler can answer. `Unrecognised` stands for a nil result or one
      given by address, which the type switch of the result applier does not match. */
  datatype Result<P, W> =
    | Complete(newCells: seq<Request<P>>, works: seq<W>)
    | Retry(retryAt: Option<Time>, newCells: seq<Request<P>>, works: seq<W>)
    | RetrySequence(delay: int, newCells: seq<Request<P>>, works: seq<W>)
    | Kill(newCells: seq<Request<P>>, works: seq<W>)
    | ErrorResult
    | Unrecognised

  datatype StoreError =
    | CellNotFound | CellNotClaimed | StepChanged | InvalidRequest | AllocatorFailed
    | CellAlreadyExists | WorkFailed | NegativeDelay | UnsupportedResult

  type CellMap<P> = map<CellId, Cell<P>>

  /** Answers of successive calls to the id allocator; None is an allocator error. */
  type Allocator = nat -> Option<CellId>

  predicate HandlersNamed<P>(steps: seq<CellStep<P>>) {
    forall i :: 0 <= i < |steps| ==> steps[i].handler != ""
  }

  predicate ValidRequest<P>(r: Request<P>) {
    |r.steps| > 0 && HandlersNamed(r.steps)
  }

  function NewCell<P>(r: Request<P>): Cell<P> {
    Cell(r.id, r.steps, 0, Ready, r.notBefore)
  }

  /** Prefixes already identified requests to the outcome for the rest. */
  function Prefixed<P>(done: seq<Request<P>>, rest: Outcome<seq<Request<P>>, StoreError>)
    : Outcome<seq<Request<P>>, StoreError>
  {
    if rest.Err? then rest else Ok(done + rest.value)
  }

  /** Validates requests and gives every unnamed one the next allocated id. */
  function Identify<P>(requests: seq<Request<P>>, allocator: Allocator, used: nat)
    : Outcome<seq<Request<P>>, StoreError>
  {
    if requests == [] then Ok([])
    else if !ValidRequest(requests[0]) then Err(InvalidRequest)
    else if requests[0].id != "" then
      Prefixed([requests[0]], Identify(requests[1..], allocator, used))
    else match allocator(used)
      case None => Err(AllocatorFailed)
      case Some(id) => Prefixed([requests[0].(id := id)], Identify(requests[1..], allocator, used + 1))
  }

  /** Why a batch of identified requests cannot be inserted, if it cannot. */
  function InsertProblem<P>(taken: set<CellId>, requests: seq<Request<P>>): Option<StoreError>
    decreases |requests|
  {
    if requests == [] then None
    else if requests[0].id == "" || !ValidRequest(requests[0]) then Some(InvalidRequest)
    else if requests[0].id in taken then Some(CellAlreadyExists)
    else InsertProblem(taken + {requests[0].id}, requests[1..])
  }

  function Insert<P>(cells: CellMap<P>, requests: seq<Request<P>>): CellMap<P>
    decreases |requests|
  {
    if requests == [] then cells
    else Insert(cells[requests[0].id := NewCell(requests[0])], requests[1..])
  }

  /** The new cells a call would insert, or why it fails. */
  function Additions<P>(taken: set<CellId>, requests: seq<Request<P>>, allocator: Allocator)
    : Outcome<seq<Request<P>>, StoreError>
  {
    var identified := Identify(requests, allocator, 0);
    if identified.Err? then identified
    else match InsertProblem(taken, identified.value)
      case Some(problem) => Err(problem)
      case None => identified
  }

  function Add<P>(cells: CellMap<P>, requests: seq<Request<P>>, allocator: Allocator)
    : Outcome<CellMap<P>, StoreError>
  {
    var added := Additions(cells.Keys, requests, allocator);
    if added.Err? then Err(added.error) else Ok(Insert(cells, added.value))
  }

  predicate Runnable<P>(cell: Cell<P>, now: Time) {
    cell.state == Ready && (cell.notBefore.Some? ==> cell.notBefore.value <= now)
  }

  function Claim<P>(cells: CellMap<P>, id: CellId): CellMap<P>
    requires id in cells
  {
    cells[id := cells[id].(state := Claimed)]
  }

  /** Completing a step moves to the next one, and removes the cell after its last. */
  function Advance<P>(cells: CellMap<P>, cell: Cell<P>): CellMap<P> {
    if cell.currentStep + 1 == |cell.steps| then cells - {cell.id}
    else cells[cell.id := cell.(currentStep := cell.currentStep + 1, state := Ready)]
  }

  /** The claimed cell's own transition, before any new cells are added. */
  function Settle<P, W>(cells: CellMap<P>, cell: Cell<P>, result: Result<P, W>, now: Time): CellMap<P>
  {
    match result
    case Complete(_, _) => Advance(cells, cell)
    case Retry(retryAt, _, _) => cells[cell.id := cell.(state := Ready, notBefore := retryAt)]
    case RetrySequence(delay, _, _) =>
      cells[cell.id := cell.(currentStep := 0, state := Ready, notBefore := Some(now + delay))]
    case Kill(_, _) => cells - {cell.id}
    case ErrorResult => cells
    case Unrecognised => cells
  }

  predicate Storable<P, W>(result: Result<P, W>) {
    result.Complete? || result.Retry? || result.RetrySequence? || result.Kill?
  }

  /** Applies a result to the claimed cell, its application work and its new
      cells together; `worksOk` says whether all application work succeeded. */
  function ApplyResult<P, W>(
    cells: CellMap<P>, claimed: Cell<P>, result: Result<P, W>, worksOk: bool, allocator: Allocator, now: Time)
    : Outcome<CellMap<P>, StoreError>
  {
    if claimed.id !in cells then Err(CellNotFound)
    else if cells[claimed.id].state != Claimed then Err(CellNotClaimed)
    else if cells[claimed.id].currentStep != claimed.currentStep then Err(StepChanged)
    else if !Storable(result) then Err(UnsupportedResult)
    else if result.RetrySequence? && result.delay < 0 then Err(NegativeDelay)
    else if !worksOk then Err(WorkFailed)
    else
      var added := Additions(cells.Keys, result.newCells, allocator);
      if added.Err? then Err(added.error)
      else Ok(Insert(Settle(cells, cells[claimed.id], result, now), added.value))
  }

  /** The legacy one-step operations of a store. */
  function CompleteCell<P>(
    cells: CellMap<P>, id: CellId, additions: seq<Request<P>>, worksOk: bool, allocator: Allocator)
    : Outcome<CellMap<P>, StoreError>
  {
    if id !in cells then Err(CellNotFound)
    else if cells[id].state != Claimed then Err(CellNotClaimed)
    else if !worksOk then Err(WorkFailed)
    else
      var added := Additions(cells.Keys, additions, allocator);
      if added.Err? then Err(added.error) else Ok(Insert(cells - {id}, added.value))
  }

  function RetryCell<P>(cells: CellMap<P>, id: CellId, notBefore: Option<Time>): Outcome<CellMap<P>, StoreError> {
    if id !in cells then Err(CellNotFound)
    else if cells[id].state != Claimed then Err(CellNotClaimed)
    else Ok(cells[id := cells[id].(state := Ready, notBefore := notBefore)])
  }

  function Recover<P>(cells: CellMap<P>): CellMap<P> {
    map id | id in cells :: cells[id].(state := Ready)
  }

  // ----- What every operation keeps -----

  /** Cells are filed under their own id and point at one of their steps. */
  ghost predicate WellFormed<P>(cells: CellMap<P>) {
    forall id :: id in cells ==>
      cells[id].id == id && 0 <= cells[id].currentStep < |cells[id].steps|
  }

  lemma {:induction false} IdentifyKeepsShape<P>(requests: seq<Request<P>>, allocator: Allocator, used: nat)
    requires Identify(requests, allocator, used).Ok?
    ensures var out := Identify(requests, allocator, used).value;
      |out| == |requests| &&
      forall i :: 0 <= i < |out| ==>
        ValidRequest(out[i]) && out[i].steps == requests[i].steps && out[i].notBefore == requests[i].notBefore
        && (requests[i].id != "" ==> out[i].id == requests[i].id)
    decreases |requests|
  {
    if requests != [] {
      IdentifyKeepsShape(requests[1..], allocator, if requests[0].id != "" then used else used + 1);
    }
  }

  /** A batch is accepted exactly when every request is valid and no id is taken or repeated. */
  lemma {:induction false} InsertProblemNone<P>(taken: set<CellId>, requests: seq<Request<P>>)
    ensures InsertProblem(taken, requests).None? <==>
      && (forall i :: 0 <= i < |requests| ==>
            requests[i].id != "" && ValidRequest(requests[i]) && requests[i].id !in taken)
      && (forall i, j :: 0 <= i < j < |requests| ==> requests[i].id != requests[j].id)
    decreases |requests|
  {
    if requests != [] {
      var head, tail := requests[0], requests[1..];
      InsertProblemNone(taken + {head.id}, tail);
      if InsertProblem(taken, requests).None? {
        forall i | 0 <= i < |requests|
          ensures requests[i].id != "" && ValidRequest(requests[i]) && requests[i].id !in taken
        {
          assert i > 0 ==> requests[i] == tail[i - 1];
        }
        forall i, j | 0 <= i < j < |requests| ensures requests[i].id != requests[j].id {
          assert requests[j] == tail[j - 1];
          assert i > 0 ==> requests[i] == tail[i - 1];
        }
      }
    }
  }

  /** Inserting adds exactly the requested cells and leaves every other cell alone. */
  lemma {:induction false} InsertContents<P>(cells: CellMap<P>, requests: seq<Request<P>>)
    requires forall i, j :: 0 <= i < j < |requests| ==> requests[i].id != requests[j].id
    ensures var out := Insert(cells, requests);
      && (forall id :: id in out <==> id in cells || exists i :: 0 <= i < |requests| && requests[i].id == id)
      && (forall i :: 0 <= i < |requests| ==> requests[i].id in out && out[requests[i].id] == NewCell(requests[i]))
      && (forall id :: id in cells && (forall i :: 0 <= i < |requests| ==> requests[i].id != id)
            ==> id in out && out[id] == cells[id])
    decreases |requests|
  {
    if requests != [] {
      var head, tail := requests[0], requests[1..];
      var next := cells[head.id := NewCell(head)];
      InsertContents(next, tail);
      var out := Insert(cells, requests);
      assert out == Insert(next, tail);
      assert forall i :: 0 <= i < |tail| ==> tail[i] == requests[i + 1];
      forall i | 0 <= i < |requests| ensures requests[i].id in out && out[requests[i].id] == NewCell(requests[i]) {
        if i > 0 { assert requests[i] == tail[i - 1]; }
      }
      forall id ensures id in out <==> id in cells || exists i :: 0 <= i < |requests| && requests[i].id == id {
        if id in out && id !in cells && id != head.id {
          var i :| 0 <= i < |tail| && tail[i].id == id;
          assert requests[i + 1].id == id;
        }
        if id == head.id { assert requests[0].id == id; }
        if id != head.id && exists i :: 0 <= i < |requests| && requests[i].id == id {
          var i :| 0 <= i < |requests| && requests[i].id == id;
          assert tail[i - 1].id == id;
        }
      }
    }
  }

  lemma InsertKeepsWellFormed<P>(cells: CellMap<P>, requests: seq<Request<P>>)
    requires WellFormed(cells)
    requires forall i :: 0 <= i < |requests| ==> ValidRequest(requests[i])
    requires forall i, j :: 0 <= i < j < |requests| ==> requests[i].id != requests[j].id
    ensures WellFormed(Insert(cells, requests))
  {
    InsertContents(cells, requests);
  }

  lemma AdditionsFacts<P>(taken: set<CellId>, requests: seq<Request<P>>, allocator: Allocator)
    requires Additions(taken, requests, allocator).Ok?
    ensures var out := Additions(taken, requests, allocator).value;
      && |out| == |requests|
      && (forall i :: 0 <= i < |out| ==>
            && ValidRequest(out[i]) && out[i].id != "" && out[i].id !in taken
            && out[i].steps == requests[i].steps && out[i].notBefore == requests[i].notBefore
            && (requests[i].id != "" ==> out[i].id == requests[i].id))
      && (forall i, j :: 0 <= i < j < |out| ==> out[i].id != out[j].id)
  {
    IdentifyKeepsShape(requests, allocator, 0);
    InsertProblemNone(taken, Additions(taken, requests, allocator).value);
  }

  /** Without the administrative overrides the step index stays inside the step
      list, so testing `== length` and `>= length` after an increment agree. */
  lemma ApplyResultKeepsWellFormed<P, W>(
    cells: CellMap<P>, claimed: Cell<P>, result: Result<P, W>, worksOk: bool, allocator: Allocator, now: Time)
    requires WellFormed(cells)
    requires ApplyResult(cells, claimed, result, worksOk, allocator, now).Ok?
    ensures WellFormed(ApplyResult(cells, claimed, result, worksOk, allocator, now).value)
  {
    var added := Additions(cells.Keys, result.newCells, allocator).value;
    AdditionsFacts(cells.Keys, result.newCells, allocator);
    InsertKeepsWellFormed(Settle(cells, cells[claimed.id], result, now), added);
  }

  lemma AddKeepsWellFormed<P>(cells: CellMap<P>, requests: seq<Request<P>>, allocator: Allocator)
    requires WellFormed(cells) && Add(cells, requests, allocator).Ok?
    ensures WellFormed(Add(cells, requests, allocator).value)
  {
    AdditionsFacts(cells.Keys, requests, allocator);
    InsertKeepsWellFormed(cells, Additions(cells.Keys, requests, allocator).value);
  }

  /** The whole effect of applying a result on every cell: the claimed cell
      makes its own transition, no other existing cell changes, its steps never
      change, and what is new is exactly what the result asked for. */
  lemma ApplyResultEffect<P, W>(
    cells: CellMap<P>, claimed: Cell<P>, result: Result<P, W>, worksOk: bool, allocator: Allocator, now: Time)
    requires WellFormed(cells)
    requires ApplyResult(cells, claimed, result, worksOk, allocator, now).Ok?
    ensures var out := ApplyResult(cells, claimed, result, worksOk, allocator, now).value;
      var cell := cells[claimed.id];
      var added := Additions(cells.Keys, result.newCells, allocator).value;
      && (forall id :: id in cells && id != claimed.id ==> id in out && out[id] == cells[id])
      && (claimed.id in out <==> !(result.Kill? || (result.Complete? && cell.currentStep == |cell.steps| - 1)))
      && (claimed.id in out ==>
            && out[claimed.id].steps == cell.steps
            && out[claimed.id].state == Ready
            && out[claimed.id].currentStep ==
                 (if result.Complete? then cell.currentStep + 1
                  else if result.RetrySequence? then 0 else cell.currentStep)
            && out[claimed.id].notBefore ==
                 (if result.Complete? then cell.notBefore
                  else if result.Retry? then result.retryAt else Some(now + result.delay)))
      && |added| == |result.newCells|
      && (forall i :: 0 <= i < |added| ==>
            && added[i].id !in cells && added[i].id in out && out[added[i].id] == NewCell(added[i])
            && added[i].steps == result.newCells[i].steps && added[i].notBefore == result.newCells[i].notBefore)
      && (forall id :: id in out && id !in cells ==> exists i :: 0 <= i < |added| && added[i].id == id)
  {
    var added := Additions(cells.Keys, result.newCells, allocator).value;
    AdditionsFacts(cells.Keys, result.newCells, allocator);
    InsertContents(Settle(cells, cells[claimed.id], result, now), added);
  }

  // ----- When operations succeed, and the one-step ones -----

  /** A result is applied exactly to a cell claimed at the claimed step, when it is one
      of the four kinds, its delay is not negative, its work succeeds and its new cells
      can be added. */
  lemma ApplyResultAccepted<P, W>(
    cells: CellMap<P>, claimed: Cell<P>, result: Result<P, W>, worksOk: bool, allocator: Allocator, now: Time)
    ensures ApplyResult(cells, claimed, result, worksOk, allocator, now).Ok? <==>
      && claimed.id in cells && cells[claimed.id].state == Claimed
      && cells[claimed.id].currentStep == claimed.currentStep
      && !result.ErrorResult? && !result.Unrecognised? && (result.RetrySequence? ==> result.delay >= 0)
      && worksOk && Additions(cells.Keys, result.newCells, allocator).Ok?
  {
  }

  /** The one-step operations: a claimed cell goes and the additions come, or it is
      ready again from the given time; nothing else changes. */
  lemma OneStepEffect<P>(
    cells: CellMap<P>, id: CellId, additions: seq<Request<P>>, worksOk: bool, allocator: Allocator, notBefore: Option<Time>)
    ensures var completed, added := CompleteCell(cells, id, additions, worksOk, allocator),
                                    Additions(cells.Keys, additions, allocator);
      && (completed.Ok? <==> id in cells && cells[id].state == Claimed && worksOk && added.Ok?)
      && (completed.Ok? ==>
            && (forall o :: o in completed.value <==> (o in cells && o != id) || o in set a <- added.value :: a.id)
            && (forall o :: o in cells && o != id ==> completed.value[o] == cells[o])
            && forall a :: a in added.value ==> completed.value[a.id] == NewCell(a))
    ensures var retried := RetryCell(cells, id, notBefore);
      && (retried.Ok? <==> id in cells && cells[id].state == Claimed)
      && (retried.Ok? ==>
            && retried.value.Keys == cells.Keys
            && (forall o :: o in cells && o != id ==> retried.value[o] == cells[o])
            && retried.value[id] == Cell(cells[id].id, cells[id].steps, cells[id].currentStep, Ready, notBefore))
  {
    if Additions(cells.Keys, additions, allocator).Ok? {
      var added := Additions(cells.Keys, additions, allocator).value;
      AdditionsFacts(cells.Keys, additions, allocator);
      InsertContents(cells - {id}, added);
      forall a | a in added ensures Insert(cells - {id}, added)[a.id] == NewCell(a) {
        var i :| 0 <= i < |added| && added[i] == a;
      }
    }
  }
}

/** The in-memory store: a map of cells and a slice holding their order.

    Every operation is proved to have exactly the abstract effect of `Cells` on
    the map, to keep the slice a duplicate-free listing of the map's keys, and to
    change nothing when it fails. */
module MemoryStore {
  import opened Basics
  import opened Cells

  /** Application work sees a transaction value and may refuse. */
  type Work<!A> = A -> Outcome<A, StoreError>

  /** The memory store hands every piece of work the same do-nothing transaction. */
  predicate AllWorksOk<A>(tx: A, works: seq<Work<A>>) {
    forall i :: 0 <= i < |works| ==> works[i](tx).Ok?
  }

  /** The order slice without the first occurrence of an id. */
  function Without(order: seq<CellId>, id: CellId): seq<CellId> {
    if order == [] then []
    else if order[0] == id then order[1..]
    else [order[0]] + Without(order[1..], id)
  }

  lemma {:induction false} WithoutFacts(order: seq<CellId>, id: CellId)
    requires NoDuplicates(order)
    ensures NoDuplicates(Without(order, id))
    ensures forall x :: x in Without(order, id) <==> x in order && x != id
  {
    if order != [] {
      assert forall i, j :: 0 <= i < j < |order[1..]| ==> order[1..][i] == order[i + 1] && order[1..][j] == order[j + 1];
      WithoutFacts(order[1..], id);
      assert order == [order[0]] + order[1..];
      var rest := Without(order[1..], id);
      assert order[0] !in order[1..];
      if order[0] != id {
        assert forall i :: 0 <= i < |rest| ==> rest[i] in rest;
        assert Without(order, id) == [order[0]] + rest;
      }
    }
  }

  lemma {:induction false} WithoutAt(order: seq<CellId>, at: nat)
    requires at < |order| && order[at] !in order[..at]
    ensures Without(order, order[at]) == order[..at] + order[at + 1..]
    decreases at
  {
    if at > 0 {
      assert order[0] == order[..at][0];
      assert order[1..][at - 1] == order[at];
      assert order[1..][..at - 1] == order[..at][1..];
      WithoutAt(order[1..], at - 1);
      assert order[..at] == [order[0]] + order[1..][..at - 1];
    }
  }

  lemma ListsExtended(order: seq<CellId>, ids: set<CellId>, id: CellId)
    requires Lists(order, ids) && id !in ids
    ensures Lists(order + [id], ids + {id})
  {
    assert forall i :: 0 <= i < |order| ==> order[i] in order;
  }

  function IdsOf<P>(requests: seq<Request<P>>): seq<CellId> {
    seq(|requests|, i requires 0 <= i < |requests| => requests[i].id)
  }

  class MemoryStore<P(!new)> {
    var cells: map<CellId, Cell<P>>
    var order: seq<CellId>

    ghost predicate Valid()
      reads this
    {
      && WellFormed(cells)
      && Lists(order, cells.Keys)
    }

    constructor ()
      ensures Valid() && cells == map[] && order == []
    {
      cells, order := map[], [];
    }

    method Add(requests: seq<Request<P>>, allocator: Allocator) returns (r: Outcome<seq<CellId>, StoreError>)
      requires Valid()
      modifies this
      ensures Valid()
      ensures var spec := Cells.Add(old(cells), requests, allocator);
        if spec.Ok? then
          r.Ok? && cells == spec.value && r.value == IdsOf(Identify(requests, allocator, 0).value) && order == old(order) + r.value
        else r == Err(spec.error) && cells == old(cells) && order == old(order)
    {
      var identified := IdentifyRequests(requests, allocator);
      if identified.Err? { return Err(identified.error); }
      var problem := CheckNewCells(identified.value);
      if problem.Some? { return Err(problem.value); }
      AddKeepsWellFormed(cells, requests, allocator);
      AdditionsFacts(cells.Keys, requests, allocator);
      Append(identified.value);
      return Ok(IdsOf(identified.value));
    }

    method ClaimNext(now: Time) returns (claimed: Option<Cell<P>>)
      requires Valid()
      modifies this
      ensures Valid() && order == old(order)
      ensures claimed.None? ==> cells == old(cells) && forall id :: id in cells ==> !Runnable(cells[id], now)
      ensures claimed.Some? ==>
        && claimed.value.id in old(cells) && Runnable(old(cells)[claimed.value.id], now)
        && cells == Claim(old(cells), claimed.value.id) && claimed.value == cells[claimed.value.id]
        && exists k :: 0 <= k < |order| && order[k] == claimed.value.id
             && forall j :: 0 <= j < k ==> !Runnable(old(cells)[order[j]], now)
    {
      for k := 0 to |order|
        invariant cells == old(cells) && order == old(order)
        invariant forall j :: 0 <= j < k ==> !Runnable(cells[order[j]], now)
      {
        var cell := cells[order[k]];
        if cell.state == Ready && (cell.notBefore.None? || cell.notBefore.value <= now) {
          cells := cells[cell.id := cell.(state := Claimed)];
          return Some(cells[cell.id]);
        }
      }
      return None;
    }

    method Complete<A>(id: CellId, additions: seq<Request<P>>, works: seq<Work<A>>, tx: A, allocator: Allocator)
      returns (r: Outcome<(), StoreError>)
      requires Valid()
      modifies this
      ensures Valid()
      ensures var spec := CompleteCell(old(cells), id, additions, AllWorksOk(tx, works), allocator);
        if spec.Ok? then
          && r.Ok? && cells == spec.value
          && order == Without(old(order), id) + IdsOf(Additions(old(cells).Keys, additions, allocator).value)
        else r == Err(spec.error) && cells == old(cells) && order == old(order)
    {
      if id !in cells { return Err(CellNotFound); }
      if cells[id].state != Claimed { return Err(CellNotClaimed); }
      var added := ApplyResultWork(additions, works, tx, allocator);
      if added.Err? { return Err(added.error); }
      AdditionsFacts(cells.Keys, additions, allocator);
      Remove(id);
      Append(added.value);
      return Ok(());
    }

    method ApplyResult<A>(claimed: Cell<P>, result: Result<P, Work<A>>, tx: A, allocator: Allocator, now: Time)
      returns (r: Outcome<(), StoreError>)
      requires Valid()
      modifies this
      ensures Valid()
      ensures var worksOk := Storable(result) && AllWorksOk(tx, result.works);
        var spec := Cells.ApplyResult(old(cells), claimed, result, worksOk, allocator, now);
        if spec.Ok? then
          && r.Ok? && cells == spec.value
          && order == (if claimed.id in cells then old(order) else Without(old(order), claimed.id))
                      + IdsOf(Additions(old(cells).Keys, result.newCells, allocator).value)
        else r == Err(spec.error) && cells == old(cells) && order == old(order)
    {
      if claimed.id !in cells { return Err(CellNotFound); }
      var cell := cells[claimed.id];
      if cell.state != Claimed { return Err(CellNotClaimed); }
      if cell.currentStep != claimed.currentStep { return Err(StepChanged); }
      if !Storable(result) { return Err(UnsupportedResult); }
      if result.RetrySequence? && result.delay < 0 { return Err(NegativeDelay); }
      var added := ApplyResultWork(result.newCells, result.works, tx, allocator);
      if added.Err? { return Err(added.error); }
      AdditionsFacts(cells.Keys, result.newCells, allocator);
      SettleCell(cell, result, now);
      InsertContents(cells, added.value);
      Append(added.value);
      return Ok(());
    }

    method Retry(id: CellId, notBefore: Option<Time>) returns (r: Outcome<(), StoreError>)
      requires Valid()
      modifies this
      ensures Valid() && order == old(order)
      ensures var spec := RetryCell(old(cells), id, notBefore);
        if spec.Ok? then r.Ok? && cells == spec.value else r == Err(spec.error) && cells == old(cells)
    {
      if id !in cells { return Err(CellNotFound); }
      if cells[id].state != Claimed { return Err(CellNotClaimed); }
      cells := cells[id := cells[id].(state := Ready, notBefore := notBefore)];
      return Ok(());
    }

    method Recover()
      requires Valid()
      modifies this
      ensures Valid() && order == old(order)
      ensures cells == Cells.Recover(old(cells))
    {
      var todo := cells.Keys;
      while todo != {}
        invariant todo <= cells.Keys == old(cells).Keys && order == old(order)
        invariant forall id :: id in cells ==>
          cells[id] == if id in todo then old(cells)[id] else old(cells)[id].(state := Ready)
        decreases todo
      {
        var id :| id in todo;
        todo := todo - {id};
        if cells[id].state == Claimed {
          cells := cells[id := cells[id].(state := Ready)];
        }
      }
    }

    method ListActive() returns (out: seq<Cell<P>>)
      requires Valid()
      ensures |out| == |order| && forall k :: 0 <= k < |out| ==> out[k] == cells[order[k]]
    {
      out := [];
      for k := 0 to |order|
        invariant |out| == k && forall j :: 0 <= j < k ==> out[j] == cells[order[j]]
      {
        out := out + [cells[order[k]]];
      }
    }

    // ----- Helpers run under the lock -----

    method IdentifyRequests(requests: seq<Request<P>>, allocator: Allocator)
      returns (r: Outcome<seq<Request<P>>, StoreError>)
      ensures r == Identify(requests, allocator, 0)
    {
      var identified, used := [], 0;
      ghost var whole := Identify(requests, allocator, 0);
      assert requests[0..] == requests;
      assert whole.Ok? ==> [] + whole.value == whole.value;
      for i := 0 to |requests|
        invariant Prefixed(identified, Identify(requests[i..], allocator, used)) == Identify(requests, allocator, 0)
      {
        var request := requests[i];
        assert requests[i..][0] == request && requests[i..][1..] == requests[i + 1..];
        if !ValidRequest(request) { return Err(InvalidRequest); }
        ghost var before := identified;
        if request.id == "" {
          var next := allocator(used);
          if next.None? { return Err(AllocatorFailed); }
          request := request.(id := next.value);
          used := used + 1;
        }
        identified := identified + [request];
        ghost var rest := Identify(requests[i + 1..], allocator, used);
        assert rest.Ok? ==> before + ([request] + rest.value) == identified + rest.value;
      }
      assert requests[|requests|..] == [] && identified + [] == identified;
      return Ok(identified);
    }

    /** Rejects a batch holding an invalid request, a taken id or a repeated id. */
    method CheckNewCells(requests: seq<Request<P>>) returns (problem: Option<StoreError>)
      ensures problem == InsertProblem(cells.Keys, requests)
    {
      var batch: set<CellId> := {};
      assert requests[0..] == requests && cells.Keys + batch == cells.Keys;
      for i := 0 to |requests|
        invariant InsertProblem(cells.Keys + batch, requests[i..]) == InsertProblem(cells.Keys, requests)
      {
        var request := requests[i];
        assert requests[i..][0] == request && requests[i..][1..] == requests[i + 1..];
        if request.id == "" || !ValidRequest(request) { return Some(InvalidRequest); }
        if request.id in cells { return Some(CellAlreadyExists); }
        if request.id in batch { return Some(CellAlreadyExists); }
        assert cells.Keys + batch + {request.id} == cells.Keys + (batch + {request.id});
        batch := batch + {request.id};
      }
      return None;
    }

    method ApplyResultWork<A>(additions: seq<Request<P>>, works: seq<Work<A>>, tx: A, allocator: Allocator)
      returns (r: Outcome<seq<Request<P>>, StoreError>)
      ensures r == if AllWorksOk(tx, works) then Additions(cells.Keys, additions, allocator) else Err(WorkFailed)
    {
      for i := 0 to |works|
        invariant forall j :: 0 <= j < i ==> works[j](tx).Ok?
      {
        if works[i](tx).Err? { return Err(WorkFailed); }
      }
      var identified := IdentifyRequests(additions, allocator);
      if identified.Err? { return identified; }
      var problem := CheckNewCells(identified.value);
      if problem.Some? { return Err(problem.value); }
      return identified;
    }

    method Append(requests: seq<Request<P>>)
      requires Valid()
      requires forall i :: 0 <= i < |requests| ==> ValidRequest(requests[i]) && requests[i].id !in cells
      requires forall i, j :: 0 <= i < j < |requests| ==> requests[i].id != requests[j].id
      modifies this
      ensures Valid() && cells == Insert(old(cells), requests)
      ensures order == old(order) + IdsOf(requests)
    {
      assert requests[0..] == requests;
      for i := 0 to |requests|
        invariant Valid()
        invariant Insert(cells, requests[i..]) == Insert(old(cells), requests)
        invariant order == old(order) + IdsOf(requests[..i])
        invariant forall j :: i <= j < |requests| ==> requests[j].id !in cells
      {
        var request := requests[i];
        assert requests[i..][0] == request && requests[i..][1..] == requests[i + 1..];
        assert IdsOf(requests[..i + 1]) == IdsOf(requests[..i]) + [request.id];
        ListsExtended(order, cells.Keys, request.id);
        assert cells[request.id := NewCell(request)].Keys == cells.Keys + {request.id};
        cells := cells[request.id := NewCell(request)];
        order := order + [request.id];
      }
      assert requests[..|requests|] == requests;
    }

    /** The claimed cell's own transition. */
    method SettleCell<A>(cell: Cell<P>, result: Result<P, Work<A>>, now: Time)
      requires Valid() && Storable(result) && cell.id in cells && cells[cell.id] == cell
      modifies this
      ensures Valid() && cells == Settle(old(cells), cell, result, now) && cells.Keys <= old(cells).Keys
      ensures order == if cell.id in cells then old(order) else Without(old(order), cell.id)
    {
      match result {
        case Complete(_, _) =>
          if cell.currentStep + 1 == |cell.steps| {
            Remove(cell.id);
          } else {
            cells := cells[cell.id := cell.(currentStep := cell.currentStep + 1, state := Ready)];
          }
        case Retry(retryAt, _, _) =>
          cells := cells[cell.id := cell.(state := Ready, notBefore := retryAt)];
        case RetrySequence(delay, _, _) =>
          cells := cells[cell.id := cell.(currentStep := 0, state := Ready, notBefore := Some(now + delay))];
        case Kill(_, _) =>
          Remove(cell.id);
      }
    }

    /** Deletes a cell from the map and from the order slice. */
    method Remove(id: CellId)
      requires Valid() && id in cells
      modifies this
      ensures Valid() && cells == old(cells) - {id} && order == Without(old(order), id)
    {
      cells := cells - {id};
      WithoutFacts(order, id);
      var at := 0;
      while at < |order| && order[at] != id
        invariant order == old(order) && 0 <= at <= |order| && id !in order[..at]
      {
        at := at + 1;
      }
      assert order[..|order|] == order;
      if at < |order| {
        WithoutAt(order, at);
        order := order[..at] + order[at + 1..];
      }
    }
  }
}

/** The SQLite store: one table of cell rows beside the application's own tables,
    every call one transaction that either commits or leaves both untouched.

    The table and the in-memory store refine the same abstract transitions. */
module SqliteStore {
  import opened Basics
  import opened Cells
  import opened MemoryStore

  datatype Row<P> = Row(cell: Cell<P>, createdAt: Time)

  type Table<P> = map<CellId, Row<P>>

  function View<P>(table: Table<P>): CellMap<P> {
    map id | id in table :: table[id].cell
  }

  /** ORDER BY created_at, id. */
  predicate RowLeq<P>(a: Row<P>, b: Row<P>) {
    a.createdAt < b.createdAt || (a.createdAt == b.createdAt && TextLeq(a.cell.id, b.cell.id))
  }

  /** Rows keep their creation time, and new ones have that of the transaction. */
  ghost predicate KeepsAges<P>(before: Table<P>, after: Table<P>, stamp: Time) {
    forall id :: id in after ==> after[id].createdAt == if id in before then before[id].createdAt else stamp
  }

  ghost predicate FirstOf<P>(table: Table<P>, ids: set<CellId>, first: CellId)
    requires ids <= table.Keys
  {
    first in ids && forall id :: id in ids ==> RowLeq(table[first], table[id])
  }

  lemma {:induction false} FirstExists<P>(table: Table<P>, ids: set<CellId>) returns (first: CellId)
    requires ids <= table.Keys && ids != {}
    ensures FirstOf(table, ids, first)
    decreases ids
  {
    var some :| some in ids;
    TextLeqTotal(table[some].cell.id, table[some].cell.id);
    first := some;
    var others := ids - {some};
    assert forall id :: id in ids ==> id == some || id in others;
    if others != {} {
      var best := FirstExists(table, others);
      TextLeqTotal(table[some].cell.id, table[best].cell.id);
      if RowLeq(table[some], table[best]) {
        forall id | id in ids ensures RowLeq(table[some], table[id]) {
          if id != some && table[some].createdAt == table[best].createdAt == table[id].createdAt {
            TextLeqTransitive(table[some].cell.id, table[best].cell.id, table[id].cell.id);
          }
        }
      } else {
        first := best;
        forall id | id in ids ensures RowLeq(table[best], table[id]) {
          assert id != some ==> id in others;
        }
      }
    }
  }

  /** Runs application work in order inside the transaction. */
  function RunWorks<A>(app: A, works: seq<Work<A>>): Outcome<A, StoreError> {
    if works == [] then Ok(app)
    else
      var next := works[0](app);
      if next.Err? then Err(WorkFailed) else RunWorks(next.value, works[1..])
  }

  /** Work runs one piece after the other, each on what the one before left, and all of
      it fails when one piece does. */
  lemma {:induction false} RunWorksInTurn<A>(app: A, first: seq<Work<A>>, second: seq<Work<A>>)
    ensures RunWorks(app, first + second)
      == var middle := RunWorks(app, first); if middle.Err? then middle else RunWorks(middle.value, second)
    ensures |first| == 1 ==>
      RunWorks(app, first) == if first[0](app).Err? then Err(WorkFailed) else Ok(first[0](app).value)
    decreases |first|
  {
    if first == [] {
      assert first + second == second;
    } else {
      assert (first + second)[1..] == first[1..] + second;
      if first[0](app).Ok? { RunWorksInTurn(first[0](app).value, first[1..], second); }
    }
  }

  /** This store allocates ids after checking only that a request has steps. */
  function LooseIdentify<P>(requests: seq<Request<P>>, allocator: Allocator, used: nat)
    : Outcome<seq<Request<P>>, StoreError>
  {
    if requests == [] then Ok([])
    else if requests[0].steps == [] then Err(InvalidRequest)
    else if requests[0].id != "" then
      Prefixed([requests[0]], LooseIdentify(requests[1..], allocator, used))
    else match allocator(used)
      case None => Err(AllocatorFailed)
      case Some(id) => Prefixed([requests[0].(id := id)], LooseIdentify(requests[1..], allocator, used + 1))
  }

  lemma {:induction false} LooseIdentifyAgrees<P>(requests: seq<Request<P>>, allocator: Allocator, used: nat)
    ensures var strict, loose := Identify(requests, allocator, used), LooseIdentify(requests, allocator, used);
      && (strict.Ok? || strict == Err(AllocatorFailed) ==> loose == strict)
      && (strict == Err(InvalidRequest) && loose.Ok? ==>
            exists i :: 0 <= i < |loose.value| && !ValidRequest(loose.value[i]))
      && (strict.Err? ==> strict.error == InvalidRequest || strict.error == AllocatorFailed)
    decreases |requests|
  {
    if requests != [] {
      var next := if requests[0].id != "" then used else used + 1;
      LooseIdentifyAgrees(requests[1..], allocator, next);
      var loose := LooseIdentify(requests, allocator, used);
      var rest := LooseIdentify(requests[1..], allocator, next);
      if loose.Ok? {
        assert loose.value[1..] == rest.value;
        if !ValidRequest(requests[0]) {
          assert !ValidRequest(loose.value[0]);
        } else if Identify(requests, allocator, used) == Err(InvalidRequest) {
          var i :| 0 <= i < |rest.value| && !ValidRequest(rest.value[i]);
          assert loose.value[i + 1] == rest.value[i];
        }
      }
    }
  }

  /** The batch this store would insert, or its error. */
  function LooseAdditions<P>(taken: set<CellId>, requests: seq<Request<P>>, allocator: Allocator)
    : Outcome<seq<Request<P>>, StoreError>
  {
    var identified := LooseIdentify(requests, allocator, 0);
    if identified.Err? then identified
    else match InsertProblem(taken, identified.value)
      case Some(problem) => Err(problem)
      case None => identified
  }

  /** Both stores accept the same batches and add the same cells; they name the
      same error too, unless the batch holds an unnamed handler. */
  lemma LooseAdditionsAgree<P>(taken: set<CellId>, requests: seq<Request<P>>, allocator: Allocator)
    ensures var strict, loose := Additions(taken, requests, allocator), LooseAdditions(taken, requests, allocator);
      if strict == Err(InvalidRequest) then loose.Err? else loose == strict
  {
    LooseIdentifyAgrees(requests, allocator, 0);
    var loose := LooseIdentify(requests, allocator, 0);
    if loose.Ok? {
      InsertProblemNone(taken, loose.value);
    }
  }

  /** The two stores can report different errors for one batch: a taken id
      followed by an unnamed handler. */
  lemma ErrorsCanDiffer()
    ensures exists requests: seq<Request<int>>, taken: set<CellId>, allocator: Allocator ::
      Additions(taken, requests, allocator) == Err(InvalidRequest)
      && LooseAdditions(taken, requests, allocator) == Err(CellAlreadyExists)
  {
    var taken: set<CellId> := {"a"};
    var requests := [Request("a", [CellStep("h", 0)], None), Request("b", [CellStep("", 0)], None)];
    var allocator: Allocator := _ => None;
    assert requests[1].steps[0].handler == "";
    assert ValidRequest(requests[0]) && !HandlersNamed(requests[1].steps);
    assert requests[1..] == [requests[1]] && requests[1..][1..] == [];
    assert [requests[1]] + [] == [requests[1]] && [requests[0]] + [requests[1]] == requests;
    assert LooseIdentify(requests[1..], allocator, 0) == Ok([requests[1]]);
    assert LooseIdentify(requests, allocator, 0) == Ok(requests);
    assert LooseAdditions(taken, requests, allocator) == Err(CellAlreadyExists);
    assert Additions(taken, requests, allocator) == Err(InvalidRequest);
  }

  // ----- The claimed row -----

  /** The claimed row after a result, None when it is deleted. The end of the
      sequence is read off the caller's copy, with `>=`. */
  function RowAfter<P, W>(stored: Cell<P>, claimed: Cell<P>, result: Result<P, W>, now: Time): Option<Cell<P>>
    requires Storable(result)
  {
    match result
    case Complete(_, _) =>
      if claimed.currentStep + 1 >= |claimed.steps| then None
      else Some(stored.(currentStep := claimed.currentStep + 1, state := Ready))
    case Retry(retryAt, _, _) => Some(stored.(state := Ready, notBefore := retryAt))
    case RetrySequence(delay, _, _) => Some(stored.(currentStep := 0, state := Ready, notBefore := Some(now + delay)))
    case Kill(_, _) => None
  }

  function Replace<P>(cells: CellMap<P>, id: CellId, after: Option<Cell<P>>): CellMap<P> {
    if after.Some? then cells[id := after.value] else cells - {id}
  }

  /** The caller's copy and the row agree on whether this is the last step. */
  predicate EndAgrees<P>(stored: Cell<P>, claimed: Cell<P>) {
    claimed.currentStep + 1 >= |claimed.steps| <==> stored.currentStep + 1 == |stored.steps|
  }

  /** Both stores make the same transition exactly when the two copies agree on
      the end of the sequence, or the result does not ask. */
  lemma SameTransition<P, W>(cells: CellMap<P>, claimed: Cell<P>, result: Result<P, W>, now: Time)
    requires claimed.id in cells && Storable(result) && cells[claimed.id].id == claimed.id
    requires cells[claimed.id].currentStep == claimed.currentStep
    ensures Replace(cells, claimed.id, RowAfter(cells[claimed.id], claimed, result, now))
      == Settle(cells, cells[claimed.id], result, now)
      <==> !result.Complete? || EndAgrees(cells[claimed.id], claimed)
  {
  }

  /** Inserting other cells before or after the row changes is the same. */
  lemma {:induction false} InsertCommutes<P>(cells: CellMap<P>, id: CellId, after: Option<Cell<P>>, added: seq<Request<P>>)
    requires forall i :: 0 <= i < |added| ==> added[i].id != id
    ensures Replace(Insert(cells, added), id, after) == Insert(Replace(cells, id, after), added)
    decreases |added|
  {
    if added != [] {
      var next := cells[added[0].id := NewCell(added[0])];
      InsertCommutes(next, id, after, added[1..]);
      assert Replace(next, id, after) == Replace(cells, id, after)[added[0].id := NewCell(added[0])];
    }
  }

  /** The error this store reports where the reference store reports `strict`. */
  function ErrorFor<P>(strict: StoreError, taken: set<CellId>, requests: seq<Request<P>>, allocator: Allocator): StoreError {
    var loose := LooseAdditions(taken, requests, allocator);
    if strict == InvalidRequest && loose.Err? then loose.error else strict
  }

  class SqliteStore<P(!new), A> {
    var table: Table<P>
    var app: A

    ghost predicate Valid()
      reads this
    {
      WellFormed(View(table))
    }

    constructor (app: A)
      ensures Valid() && table == map[] && this.app == app
    {
      table, this.app := map[], app;
    }

    method Add(requests: seq<Request<P>>, allocator: Allocator, stamp: Time)
      returns (r: Outcome<seq<CellId>, StoreError>)
      requires Valid()
      modifies this
      ensures Valid() && app == old(app)
      ensures var spec := Cells.Add(old(View(table)), requests, allocator);
        if spec.Ok? then
          && r == Ok(IdsOf(Identify(requests, allocator, 0).value)) && View(table) == spec.value
          && KeepsAges(old(table), table, stamp)
        else r == Err(ErrorFor(spec.error, old(View(table)).Keys, requests, allocator)) && table == old(table)
    {
      LooseAdditionsAgree(View(table).Keys, requests, allocator);
      assert View(table).Keys == table.Keys;
      var identified := IdentifyRequests(requests, allocator);
      if identified.Err? { return Err(identified.error); }
      var tx := InsertAll(table, identified.value, stamp);
      if tx.Err? { return Err(tx.error); }
      AddKeepsWellFormed(View(table), requests, allocator);
      table := tx.value;
      return Ok(IdsOf(identified.value));
    }

    method ClaimNext(now: Time) returns (claimed: Option<Cell<P>>)
      requires Valid()
      modifies this
      ensures Valid() && app == old(app)
      ensures claimed.None? ==> table == old(table) && forall id :: id in table ==> !Runnable(table[id].cell, now)
      ensures claimed.Some? ==>
        && claimed.value.id in old(table) && Runnable(old(table)[claimed.value.id].cell, now)
        && View(table) == Claim(old(View(table)), claimed.value.id)
        && claimed.value.id in table && claimed.value == table[claimed.value.id].cell
        && KeepsAges(old(table), table, now)
        && forall id :: id in old(table) && Runnable(old(table)[id].cell, now) ==>
             && old(table)[claimed.value.id].createdAt <= old(table)[id].createdAt
             && (old(table)[claimed.value.id].createdAt == old(table)[id].createdAt ==>
                   TextLeq(claimed.value.id, old(table)[id].cell.id))
    {
      var runnable := set id | id in table && Runnable(table[id].cell, now);
      assert forall id :: id in table && Runnable(table[id].cell, now) ==> id in runnable;
      if runnable == {} { return None; }
      ghost var first := FirstExists(table, runnable);
      var id :| id in runnable && forall other :: other in runnable ==> RowLeq(table[id], table[other]);
      assert View(table)[id] == table[id].cell;
      ghost var was := View(table);
      assert forall other :: other in table && Runnable(table[other].cell, now) ==> RowLeq(table[id], table[other]);
      table := table[id := table[id].(cell := table[id].cell.(state := Claimed))];
      assert View(table) == Claim(was, id);
      return Some(table[id].cell);
    }

    /** Refines the same transition as the reference store exactly when the copy
        the caller passes back agrees with the row on the end of the sequence,
        which holds because steps never change. */
    method ApplyResult(claimed: Cell<P>, result: Result<P, Work<A>>, allocator: Allocator, now: Time, stamp: Time)
      returns (r: Outcome<(), StoreError>)
      requires Valid()
      modifies this
      ensures var works := if Storable(result) then RunWorks(old(app), result.works) else Err(WorkFailed);
        var spec := Cells.ApplyResult(old(View(table)), claimed, result, works.Ok?, allocator, now);
        if spec.Err? then
          && table == old(table) && app == old(app)
          && r == Err(if Storable(result) then ErrorFor(spec.error, old(View(table)).Keys, result.newCells, allocator)
                      else spec.error)
        else
          var stored := old(table)[claimed.id].cell;
          && r.Ok? && works.Ok? && app == works.value && KeepsAges(old(table), table, stamp)
          && View(table) == Insert(Replace(old(View(table)), claimed.id, RowAfter(stored, claimed, result, now)),
                                   Additions(old(View(table)).Keys, result.newCells, allocator).value)
          && (View(table) == spec.value <==> !result.Complete? || EndAgrees(stored, claimed))
      ensures claimed.id in old(table) && EndAgrees(old(table)[claimed.id].cell, claimed) ==> Valid()
    {
      ghost var was := View(table);
      assert was.Keys == table.Keys;
      if claimed.id !in table { return Err(CellNotFound); }
      var cell := table[claimed.id].cell;
      assert was[claimed.id] == cell;
      if cell.state != Claimed { return Err(CellNotClaimed); }
      if cell.currentStep != claimed.currentStep { return Err(StepChanged); }
      if !Storable(result) { return Err(UnsupportedResult); }
      if result.RetrySequence? && result.delay < 0 { return Err(NegativeDelay); }
      var appTx := RunAll(app, result.works);
      if appTx.Err? { return Err(WorkFailed); }
      LooseAdditionsAgree(table.Keys, result.newCells, allocator);
      var identified := IdentifyRequests(result.newCells, allocator);
      if identified.Err? { return Err(identified.error); }
      var inserted := InsertAll(table, identified.value, stamp);
      if inserted.Err? { return Err(inserted.error); }
      var tx := inserted.value;
      ghost var added := Additions(table.Keys, result.newCells, allocator).value;
      AdditionsFacts(table.Keys, result.newCells, allocator);
      InsertContents(was, added);
      assert View(tx)[claimed.id] == cell;
      InsertCommutes(was, claimed.id, RowAfter(cell, claimed, result, now), added);
      TransitionsCompared(was, claimed, result, now, added);
      ApplyResultKeepsWellFormed(was, claimed, result, true, allocator, now);
      tx := UpdateRow(tx, claimed, result, now);
      table, app := tx, appTx.value;
      return Ok(());
    }

    method Retry(id: CellId, notBefore: Option<Time>) returns (r: Outcome<(), StoreError>)
      requires Valid()
      modifies this
      ensures Valid() && app == old(app)
      ensures var spec := RetryCell(old(View(table)), id, notBefore);
        if spec.Ok? then r.Ok? && View(table) == spec.value else r == Err(spec.error) && table == old(table)
      ensures forall o :: o in table ==> o in old(table) && table[o].createdAt == old(table)[o].createdAt
    {
      if id !in table { return Err(CellNotFound); }
      assert View(table)[id] == table[id].cell;
      if table[id].cell.state != Claimed { return Err(CellNotClaimed); }
      ghost var spec := RetryCell(View(table), id, notBefore);
      table := table[id := table[id].(cell := table[id].cell.(state := Ready, notBefore := notBefore))];
      assert View(table) == spec.value;
      return Ok(());
    }

    method Recover()
      requires Valid()
      modifies this
      ensures Valid() && app == old(app)
      ensures View(table) == Cells.Recover(old(View(table)))
      ensures forall o :: o in table ==> o in old(table) && table[o].createdAt == old(table)[o].createdAt
    {
      table := map id | id in table ::
        if table[id].cell.state == Claimed then table[id].(cell := table[id].cell.(state := Ready)) else table[id];
    }

    // ----- Statements inside a transaction -----

    /** UPDATE or DELETE of the claimed row in a copy of the table. */
    static method UpdateRow(before: Table<P>, claimed: Cell<P>, result: Result<P, Work<A>>, now: Time)
      returns (tx: Table<P>)
      requires Storable(result) && claimed.id in before
      ensures View(tx) == Replace(View(before), claimed.id, RowAfter(before[claimed.id].cell, claimed, result, now))
      ensures forall o :: o in tx ==> o in before && tx[o].createdAt == before[o].createdAt
    {
      var row := before[claimed.id];
      match result {
        case Complete(_, _) =>
          if claimed.currentStep + 1 >= |claimed.steps| {
            tx := before - {claimed.id};
          } else {
            tx := before[claimed.id := row.(cell := row.cell.(currentStep := claimed.currentStep + 1, state := Ready))];
          }
        case Retry(retryAt, _, _) =>
          tx := before[claimed.id := row.(cell := row.cell.(state := Ready, notBefore := retryAt))];
        case RetrySequence(delay, _, _) =>
          tx := before[claimed.id :=
            row.(cell := row.cell.(currentStep := 0, state := Ready, notBefore := Some(now + delay)))];
        case Kill(_, _) =>
          tx := before - {claimed.id};
      }
    }

    /** INSERT of every identified request into a copy of the table; an error discards the copy. */
    static method InsertAll(before: Table<P>, batch: seq<Request<P>>, stamp: Time)
      returns (r: Outcome<Table<P>, StoreError>)
      ensures match InsertProblem(before.Keys, batch)
        case Some(problem) => r == Err(problem)
        case None => r.Ok? && View(r.value) == Insert(View(before), batch) && KeepsAges(before, r.value, stamp)
    {
      var tx := before;
      assert batch[0..] == batch;
      for i := 0 to |batch|
        invariant InsertProblem(tx.Keys, batch[i..]) == InsertProblem(before.Keys, batch)
        invariant Insert(View(tx), batch[i..]) == Insert(View(before), batch)
        invariant before.Keys <= tx.Keys && KeepsAges(before, tx, stamp)
      {
        var request := batch[i];
        assert batch[i..][0] == request && batch[i..][1..] == batch[i + 1..];
        if request.id == "" || request.steps == [] || !HandlersNamed(request.steps) { return Err(InvalidRequest); }
        if request.id in tx { return Err(CellAlreadyExists); }
        ghost var was := tx;
        tx := tx[request.id := Row(NewCell(request), stamp)];
        assert tx.Keys == was.Keys + {request.id};
        assert View(tx) == View(was)[request.id := NewCell(request)];
      }
      return Ok(tx);
    }

    static method IdentifyRequests(requests: seq<Request<P>>, allocator: Allocator)
      returns (r: Outcome<seq<Request<P>>, StoreError>)
      ensures r == LooseIdentify(requests, allocator, 0)
    {
      var identified, used := [], 0;
      ghost var whole := LooseIdentify(requests, allocator, 0);
      assert requests[0..] == requests;
      assert whole.Ok? ==> [] + whole.value == whole.value;
      for i := 0 to |requests|
        invariant Prefixed(identified, LooseIdentify(requests[i..], allocator, used)) == whole
      {
        var request := requests[i];
        assert requests[i..][0] == request && requests[i..][1..] == requests[i + 1..];
        if request.steps == [] { return Err(InvalidRequest); }
        ghost var before := identified;
        if request.id == "" {
          var next := allocator(used);
          if next.None? { return Err(AllocatorFailed); }
          request := request.(id := next.value);
          used := used + 1;
        }
        identified := identified + [request];
        ghost var rest := LooseIdentify(requests[i + 1..], allocator, used);
        assert rest.Ok? ==> before + ([request] + rest.value) == identified + rest.value;
      }
      assert requests[|requests|..] == [] && identified + [] == identified;
      return Ok(identified);
    }

    static method RunAll(before: A, works: seq<Work<A>>) returns (r: Outcome<A, StoreError>)
      ensures r == RunWorks(before, works)
    {
      var tx := before;
      assert works[0..] == works;
      for i := 0 to |works|
        invariant RunWorks(tx, works[i..]) == RunWorks(before, works)
      {
        assert works[i..][0] == works[i] && works[i..][1..] == works[i + 1..];
        var next := works[i](tx);
        if next.Err? { return Err(WorkFailed); }
        tx := next.value;
      }
      return Ok(tx);
    }
  }

  /** With the same additions, the outcomes are equal exactly when the transitions are. */
  lemma TransitionsCompared<P, W>(
    cells: CellMap<P>, claimed: Cell<P>, result: Result<P, W>, now: Time, added: seq<Request<P>>)
    requires claimed.id in cells && Storable(result) && cells[claimed.id].id == claimed.id
    requires cells[claimed.id].currentStep == claimed.currentStep
    requires forall i :: 0 <= i < |added| ==> added[i].id != claimed.id
    requires forall i, j :: 0 <= i < j < |added| ==> added[i].id != added[j].id
    ensures Insert(Replace(cells, claimed.id, RowAfter(cells[claimed.id], claimed, result, now)), added)
      == Insert(Settle(cells, cells[claimed.id], result, now), added)
      <==> !result.Complete? || EndAgrees(cells[claimed.id], claimed)
  {
    SameTransition(cells, claimed, result, now);
    InsertContents(Replace(cells, claimed.id, RowAfter(cells[claimed.id], claimed, result, now)), added);
    InsertContents(Settle(cells, cells[claimed.id], result, now), added);
  }
}

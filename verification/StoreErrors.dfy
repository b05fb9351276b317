/** When the two stores name different errors for a batch they both reject.

    The in-memory store checks a request whole before it allocates its id; the
    SQLite store checks only that it has steps, and looks at handler names when it
    inserts. */
module StoreErrors {
  import opened Basics
  import opened Cells
  import opened SqliteStore

  /** Calls to the allocator for the first `n` requests. */
  function Calls<P>(requests: seq<Request<P>>, n: nat): nat
    requires n <= |requests|
  {
    if n == 0 then 0 else Calls(requests, n - 1) + if requests[n - 1].id == "" then 1 else 0
  }

  /** The request asks for an id and the allocator has none. */
  predicate AllocFails<P>(requests: seq<Request<P>>, allocator: Allocator, used: nat, n: nat)
    requires n < |requests|
  {
    requests[n].id == "" && allocator(used + Calls(requests, n)).None?
  }

  /** The id a request ends up with. */
  function IdOf<P>(requests: seq<Request<P>>, allocator: Allocator, used: nat, n: nat): CellId
    requires n < |requests|
  {
    if requests[n].id != "" then requests[n].id
    else match allocator(used + Calls(requests, n))
      case Some(id) => id
      case None => ""
  }

  /** Why identification stops at a request, in the in-memory and in the SQLite store. */
  function Stop<P>(requests: seq<Request<P>>, allocator: Allocator, used: nat, n: nat, loose: bool): Option<StoreError>
    requires n < |requests|
  {
    if (if loose then requests[n].steps == [] else !ValidRequest(requests[n])) then Some(InvalidRequest)
    else if AllocFails(requests, allocator, used, n) then Some(AllocatorFailed)
    else None
  }

  function Identified<P>(requests: seq<Request<P>>, allocator: Allocator, used: nat, loose: bool)
    : Outcome<seq<Request<P>>, StoreError>
  {
    if loose then LooseIdentify(requests, allocator, used) else Identify(requests, allocator, used)
  }

  ghost predicate FirstStop<P>(
    requests: seq<Request<P>>, allocator: Allocator, used: nat, loose: bool, n: int, e: StoreError)
  {
    && 0 <= n < |requests| && Stop(requests, allocator, used, n, loose) == Some(e)
    && forall m :: 0 <= m < n ==> Stop(requests, allocator, used, m, loose) == None
  }

  lemma {:induction false} CallsShift<P>(requests: seq<Request<P>>, n: nat)
    requires 0 < n <= |requests|
    ensures Calls(requests, n) == (if requests[0].id == "" then 1 else 0) + Calls(requests[1..], n - 1)
    decreases n
  {
    if n > 1 { CallsShift(requests, n - 1); }
  }

  function UsedAfter<P>(requests: seq<Request<P>>, used: nat): nat
    requires requests != []
  {
    if requests[0].id == "" then used + 1 else used
  }

  lemma StopShift<P>(requests: seq<Request<P>>, allocator: Allocator, used: nat, n: nat, loose: bool)
    requires 0 < n < |requests|
    ensures var next := UsedAfter(requests, used);
      && Stop(requests, allocator, used, n, loose) == Stop(requests[1..], allocator, next, n - 1, loose)
      && IdOf(requests, allocator, used, n) == IdOf(requests[1..], allocator, next, n - 1)
  {
    CallsShift(requests, n);
  }

  /** Identification fails with the first stop, and otherwise names every request. */
  lemma {:induction false} IdentifiedIs<P>(requests: seq<Request<P>>, allocator: Allocator, used: nat, loose: bool)
    ensures var out := Identified(requests, allocator, used, loose);
      if out.Err? then exists n :: FirstStop(requests, allocator, used, loose, n, out.error)
      else
        && |out.value| == |requests|
        && forall n :: 0 <= n < |requests| ==>
             && Stop(requests, allocator, used, n, loose) == None
             && out.value[n] == requests[n].(id := IdOf(requests, allocator, used, n))
    decreases |requests|
  {
    if requests != [] {
      var tail, next := requests[1..], UsedAfter(requests, used);
      var out, rest := Identified(requests, allocator, used, loose), Identified(tail, allocator, next, loose);
      if Stop(requests, allocator, used, 0, loose).Some? {
        assert FirstStop(requests, allocator, used, loose, 0, out.error);
      } else {
        IdentifiedIs(tail, allocator, next, loose);
        if out.Err? {
          var n :| FirstStop(tail, allocator, next, loose, n, out.error);
          FirstStopShift(requests, allocator, used, loose, n, out.error);
        } else {
          forall n | 0 < n < |requests|
            ensures Stop(requests, allocator, used, n, loose) == None
            ensures out.value[n] == requests[n].(id := IdOf(requests, allocator, used, n))
          {
            StopShift(requests, allocator, used, n, loose);
            assert out.value[n] == rest.value[n - 1] && requests[n] == tail[n - 1];
          }
        }
      }
    }
  }

  lemma FirstStopShift<P>(
    requests: seq<Request<P>>, allocator: Allocator, used: nat, loose: bool, n: int, e: StoreError)
    requires requests != [] && Stop(requests, allocator, used, 0, loose) == None
    requires FirstStop(requests[1..], allocator, UsedAfter(requests, used), loose, n, e)
    ensures FirstStop(requests, allocator, used, loose, n + 1, e)
  {
    var tail, next := requests[1..], UsedAfter(requests, used);
    forall m | 0 < m <= n + 1
      ensures Stop(requests, allocator, used, m, loose) == Stop(tail, allocator, next, m - 1, loose)
    {
      StopShift(requests, allocator, used, m, loose);
    }
  }

  /** The first stop decides. */
  lemma StopDecides<P>(requests: seq<Request<P>>, allocator: Allocator, loose: bool, n: int, e: StoreError)
    requires FirstStop(requests, allocator, 0, loose, n, e)
    ensures Identified(requests, allocator, 0, loose) == Err(e)
  {
    IdentifiedIs(requests, allocator, 0, loose);
    var out := Identified(requests, allocator, 0, loose);
    if out.Err? {
      var m :| FirstStop(requests, allocator, 0, loose, m, out.error);
      assert m == n;
    }
  }

  // ----- Insertion -----

  ghost predicate Repeats<P>(taken: set<CellId>, requests: seq<Request<P>>, n: nat)
    requires n < |requests|
  {
    requests[n].id in taken || exists m :: 0 <= m < n && requests[m].id == requests[n].id
  }

  /** What inserting one request of a batch runs into. */
  ghost function Trouble<P>(taken: set<CellId>, requests: seq<Request<P>>, n: nat): Option<StoreError>
    requires n < |requests|
  {
    if requests[n].id == "" || !ValidRequest(requests[n]) then Some(InvalidRequest)
    else if Repeats(taken, requests, n) then Some(CellAlreadyExists)
    else None
  }

  ghost predicate FirstTrouble<P>(taken: set<CellId>, requests: seq<Request<P>>, n: int, e: StoreError) {
    && 0 <= n < |requests| && Trouble(taken, requests, n) == Some(e)
    && forall m :: 0 <= m < n ==> Trouble(taken, requests, m) == None
  }

  lemma TroubleShift<P>(taken: set<CellId>, requests: seq<Request<P>>, n: nat)
    requires 0 < n < |requests|
    ensures Trouble(taken, requests, n) == Trouble(taken + {requests[0].id}, requests[1..], n - 1)
  {
    var tail := requests[1..];
    if m :| 0 <= m < n && requests[m].id == requests[n].id {
      if m > 0 { assert tail[m - 1].id == tail[n - 1].id; }
    }
    if m :| 0 <= m < n - 1 && tail[m].id == tail[n - 1].id { assert requests[m + 1].id == requests[n].id; }
  }

  lemma {:induction false} InsertProblemIs<P>(taken: set<CellId>, requests: seq<Request<P>>)
    ensures var problem := InsertProblem(taken, requests);
      problem.Some? ==> exists n :: FirstTrouble(taken, requests, n, problem.value)
    decreases |requests|
  {
    var problem := InsertProblem(taken, requests);
    if problem.Some? {
      if Trouble(taken, requests, 0).Some? {
        assert FirstTrouble(taken, requests, 0, problem.value);
      } else {
        var more := taken + {requests[0].id};
        InsertProblemIs(more, requests[1..]);
        var n :| FirstTrouble(more, requests[1..], n, problem.value);
        forall m | 0 < m <= n + 1
          ensures Trouble(taken, requests, m) == Trouble(more, requests[1..], m - 1)
        {
          TroubleShift(taken, requests, m);
        }
        assert FirstTrouble(taken, requests, n + 1, problem.value);
      }
    }
  }

  // ----- When the errors differ -----

  /** The first invalid request, reached before the allocator fails. */
  ghost predicate FirstInvalid<P>(requests: seq<Request<P>>, allocator: Allocator, i: int) {
    && 0 <= i < |requests| && !ValidRequest(requests[i])
    && forall m :: 0 <= m < i ==> ValidRequest(requests[m]) && !AllocFails(requests, allocator, 0, m)
  }

  /** Past an unnamed handler, the allocator fails before a request without steps is met. */
  ghost predicate AllocatorOvertakes<P>(requests: seq<Request<P>>, allocator: Allocator, i: int, f: int) {
    && FirstInvalid(requests, allocator, i) && i <= f < |requests| && AllocFails(requests, allocator, 0, f)
    && (forall m :: 0 <= m < f ==> !AllocFails(requests, allocator, 0, m))
    && (forall m :: 0 <= m <= f ==> requests[m].steps != [])
  }

  /** A request's id is taken, or given to an earlier request of the batch. */
  ghost predicate Clashes<P>(taken: set<CellId>, requests: seq<Request<P>>, allocator: Allocator, c: int) {
    && 0 <= c < |requests|
    && (IdOf(requests, allocator, 0, c) in taken
        || exists m :: 0 <= m < c && IdOf(requests, allocator, 0, m) == IdOf(requests, allocator, 0, c))
  }

  /** Every request has steps and an id, and an id clashes before the unnamed handler is met. */
  ghost predicate ClashOvertakes<P>(
    taken: set<CellId>, requests: seq<Request<P>>, allocator: Allocator, i: int, c: int)
  {
    && FirstInvalid(requests, allocator, i) && 0 <= c < i && Clashes(taken, requests, allocator, c)
    && (forall m :: 0 <= m < |requests| ==> requests[m].steps != [] && !AllocFails(requests, allocator, 0, m))
    && (forall m :: 0 <= m <= c ==> IdOf(requests, allocator, 0, m) != "")
  }

  ghost predicate ErrorsDiffer<P>(taken: set<CellId>, requests: seq<Request<P>>, allocator: Allocator) {
    var strict, loose := Additions(taken, requests, allocator), LooseAdditions(taken, requests, allocator);
    strict.Err? && loose.Err? && strict.error != loose.error
  }

  ghost predicate Overtaken<P>(taken: set<CellId>, requests: seq<Request<P>>, allocator: Allocator) {
    || (exists i, f :: AllocatorOvertakes(requests, allocator, i, f))
    || (exists i, c :: ClashOvertakes(taken, requests, allocator, i, c))
  }

  lemma AllocatorCase<P>(taken: set<CellId>, requests: seq<Request<P>>, allocator: Allocator, i: int, f: int)
    requires AllocatorOvertakes(requests, allocator, i, f)
    ensures ErrorsDiffer(taken, requests, allocator)
  {
    assert FirstStop(requests, allocator, 0, false, i, InvalidRequest);
    StopDecides(requests, allocator, false, i, InvalidRequest);
    assert FirstStop(requests, allocator, 0, true, f, AllocatorFailed);
    StopDecides(requests, allocator, true, f, AllocatorFailed);
  }

  /** With every request named, troubles can be read off the batch. */
  lemma TroubleOf<P>(
    taken: set<CellId>, requests: seq<Request<P>>, allocator: Allocator, named: seq<Request<P>>, n: nat)
    requires |named| == |requests| && n < |requests|
    requires forall m :: 0 <= m < |requests| ==> named[m] == requests[m].(id := IdOf(requests, allocator, 0, m))
    ensures Trouble(taken, named, n) ==
      if IdOf(requests, allocator, 0, n) == "" || !ValidRequest(requests[n]) then Some(InvalidRequest)
      else if Clashes(taken, requests, allocator, n) then Some(CellAlreadyExists) else None
  {
    assert ValidRequest(named[n]) == ValidRequest(requests[n]);
    if Clashes(taken, requests, allocator, n) && named[n].id !in taken {
      var m :| 0 <= m < n && IdOf(requests, allocator, 0, m) == IdOf(requests, allocator, 0, n);
      assert named[m].id == named[n].id;
    }
    if m :| 0 <= m < n && named[m].id == named[n].id {
      assert IdOf(requests, allocator, 0, m) == IdOf(requests, allocator, 0, n);
    }
  }

  lemma NoProblemNoTrouble<P>(taken: set<CellId>, requests: seq<Request<P>>, n: nat)
    requires n < |requests| && InsertProblem(taken, requests).None?
    ensures Trouble(taken, requests, n) == None
  {
    InsertProblemNone(taken, requests);
  }

  lemma ClashCase<P>(taken: set<CellId>, requests: seq<Request<P>>, allocator: Allocator, i: int, c: int)
    requires ClashOvertakes(taken, requests, allocator, i, c)
    ensures ErrorsDiffer(taken, requests, allocator)
  {
    assert FirstStop(requests, allocator, 0, false, i, InvalidRequest);
    StopDecides(requests, allocator, false, i, InvalidRequest);
    IdentifiedIs(requests, allocator, 0, true);
    var named := LooseIdentify(requests, allocator, 0).value;
    TroubleOf(taken, requests, allocator, named, c);
    if InsertProblem(taken, named).None? {
      NoProblemNoTrouble(taken, named, c);
    } else {
      InsertProblemIs(taken, named);
      var n :| FirstTrouble(taken, named, n, InsertProblem(taken, named).value);
      assert n <= c;
      TroubleOf(taken, requests, allocator, named, n);
    }
  }

  /** Where the in-memory store gets past identification or stops at the
      allocator, the SQLite store does the same. */
  lemma SameUnlessInvalid<P>(requests: seq<Request<P>>, allocator: Allocator)
    ensures var strict := Identify(requests, allocator, 0);
      strict != Err(InvalidRequest) ==> LooseIdentify(requests, allocator, 0) == strict
  {
    LooseIdentifyAgrees(requests, allocator, 0);
  }

  lemma DifferenceExplained<P>(taken: set<CellId>, requests: seq<Request<P>>, allocator: Allocator)
    requires ErrorsDiffer(taken, requests, allocator)
    ensures Overtaken(taken, requests, allocator)
  {
    SameUnlessInvalid(requests, allocator);
    IdentifiedIs(requests, allocator, 0, false);
    var i :| FirstStop(requests, allocator, 0, false, i, InvalidRequest);
    forall m | 0 <= m < i ensures ValidRequest(requests[m]) && !AllocFails(requests, allocator, 0, m) {
      assert Stop(requests, allocator, 0, m, false) == None;
    }
    assert FirstInvalid(requests, allocator, i);
    IdentifiedIs(requests, allocator, 0, true);
    var loose := LooseIdentify(requests, allocator, 0);
    if loose.Err? {
      var f :| FirstStop(requests, allocator, 0, true, f, loose.error);
      FirstLooseStop(requests, allocator, i, f);
    } else {
      InsertProblemIs(taken, loose.value);
      var c :| FirstTrouble(taken, loose.value, c, InsertProblem(taken, loose.value).value);
      FirstClash(taken, requests, allocator, loose.value, i, c);
    }
  }

  lemma FirstLooseStop<P>(requests: seq<Request<P>>, allocator: Allocator, i: int, f: int)
    requires FirstInvalid(requests, allocator, i) && FirstStop(requests, allocator, 0, true, f, AllocatorFailed)
    ensures AllocatorOvertakes(requests, allocator, i, f)
  {
    forall m | 0 <= m < f ensures requests[m].steps != [] && !AllocFails(requests, allocator, 0, m) {
      assert Stop(requests, allocator, 0, m, true) == None;
    }
  }

  lemma FirstClash<P>(
    taken: set<CellId>, requests: seq<Request<P>>, allocator: Allocator, named: seq<Request<P>>, i: int, c: int)
    requires FirstInvalid(requests, allocator, i) && |named| == |requests|
    requires forall m :: 0 <= m < |requests| ==>
      && Stop(requests, allocator, 0, m, true) == None
      && named[m] == requests[m].(id := IdOf(requests, allocator, 0, m))
    requires FirstTrouble(taken, named, c, CellAlreadyExists)
    ensures ClashOvertakes(taken, requests, allocator, i, c)
  {
    forall m | 0 <= m < |requests| ensures requests[m].steps != [] && !AllocFails(requests, allocator, 0, m) {
      assert Stop(requests, allocator, 0, m, true) == None;
    }
    TroubleOf(taken, requests, allocator, named, i);
    TroubleOf(taken, requests, allocator, named, c);
    forall m | 0 <= m <= c ensures IdOf(requests, allocator, 0, m) != "" {
      TroubleOf(taken, requests, allocator, named, m);
    }
  }

  /** The stores reject the same batches, and name different errors exactly when,
      past an unnamed handler, the allocator fails before a request without steps
      is met, or, with every request identified, an id clashes before it. */
  lemma ErrorsDifferIff<P>(taken: set<CellId>, requests: seq<Request<P>>, allocator: Allocator)
    ensures Additions(taken, requests, allocator).Ok? == LooseAdditions(taken, requests, allocator).Ok?
    ensures ErrorsDiffer(taken, requests, allocator) <==> Overtaken(taken, requests, allocator)
  {
    LooseAdditionsAgree(taken, requests, allocator);
    if ErrorsDiffer(taken, requests, allocator) {
      DifferenceExplained(taken, requests, allocator);
    }
    if i, f :| AllocatorOvertakes(requests, allocator, i, f) { AllocatorCase(taken, requests, allocator, i, f); }
    if i, c :| ClashOvertakes(taken, requests, allocator, i, c) { ClashCase(taken, requests, allocator, i, c); }
  }
}

/** Applying a handler's result, in one transaction with its application work and
    its new cells, keeps the invariant. */
module EmailApplying {
  import opened Basics
  import opened Cells
  import opened EmailEvents
  import opened EmailStore
  import opened EmailHandlers
  import opened EmailProtocol
  import opened EmailInvariant
  import opened EmailSteps
  import opened EmailSending

  // ----- The cell's own transition -----

  /** A worker's cell once the worker has let go of it. */
  ghost predicate Held(s: Sys, id: CellId) {
    && s.mode == Up && id !in s.phases && id in s.cells && s.cells[id].state == Claimed && s.cells[id].id == id
    && 0 <= s.cells[id].currentStep < |s.cells[id].steps|
  }

  /** The state after the cell's own transition. */
  function Finished(s: Sys, id: CellId, result: EmailResult): Sys
    requires id in s.cells
  {
    var cells := Settle(s.cells, s.cells[id], result, s.now);
    s.(cells := cells, senders := SendersAfter(s.senders, cells))
  }

  lemma SettleReleases(cells: CellMap<Payload>, id: CellId, result: EmailResult, now: Time)
    requires id in cells && cells[id].id == id && 0 <= cells[id].currentStep < |cells[id].steps|
    requires result.Complete? || result.Retry? || result.RetrySequence?
    requires RoleOf(cells[id]).SendRole? || (result.Complete? && |cells[id].steps| == 1)
    ensures Released(cells, Settle(cells, cells[id], result, now), id)
  {
  }

  lemma ReleaseKeepsInv(s: Sys, id: CellId, result: EmailResult)
    requires Inv(s) && Held(s, id) && (result.Complete? || result.Retry? || result.RetrySequence?)
    requires RoleOf(s.cells[id]).SendRole? || (result.Complete? && |s.cells[id].steps| == 1)
    requires RoleOf(s.cells[id]).SendRole? ==>
      forall k :: k in s.db.progress && k.0 == RoleOf(s.cells[id]).token ==> KindOf(s.db.progress[k]) != KInFlight
    ensures Inv(Finished(s, id, result))
  {
    SettleReleases(s.cells, id, result, s.now);
    ReleasingKeepsInv(s, Settle(s.cells, s.cells[id], result, s.now), id);
  }

  /** Without new cells, applying is the work followed by the cell's own transition. */
  lemma AppliedIs(s: Sys, id: CellId, result: EmailResult, allocator: Allocator)
    requires id in s.cells && s.cells[id].id == id && CanApply(s, id, result, allocator) && result.newCells == []
    ensures Applied(s, id, result, allocator)
      == Finished(s.(phases := s.phases - {id}, db := RunWorks(s.db, result.works).value), id, result)
  {
  }

  lemma HeldWhenLetGo(s: Sys, id: CellId)
    requires Inv(s) && Working(s, id)
    ensures Held(s.(phases := s.phases - {id}), id) && Inv(s.(phases := s.phases - {id}))
    ensures PhaseFits(s.db.requests, s.db.progress, s.cells, s.now, s.log, CurrentPayload(s.cells[id]), s.phases[id])
  {
    LettingGo(s, id);
  }

  /** A Send worker outside the two phases of a submission has no row in flight. */
  lemma NothingInFlight(s: Sys, id: CellId)
    requires InFlightOwned(s.db.progress, s.cells, s.senders, s.phases, s.mode) && SendersMatch(s.cells, s.senders)
    requires id in s.phases && id in s.cells && !s.phases[id].PostMarked? && !s.phases[id].PostAnswered?
    ensures RoleOf(s.cells[id]).SendRole? ==>
      forall k :: k in s.db.progress && k.0 == RoleOf(s.cells[id]).token ==> KindOf(s.db.progress[k]) != KInFlight
  {
  }

  /** The worker on `id` is about to apply `result`, and the store will accept it. */
  ghost predicate Applying(s: Sys, id: CellId, result: EmailResult, allocator: Allocator) {
    && Working(s, id) && PendingResult(CurrentPayload(s.cells[id]), s.phases[id]) == Some(result)
    && CanApply(s, id, result, allocator)
  }

  // ----- Results that only move the cell -----

  lemma PlainKeepsInv(s: Sys, id: CellId, result: EmailResult, allocator: Allocator)
    requires Inv(s) && Applying(s, id, result, allocator) && s.phases[id].Plain?
    ensures Inv(Applied(s, id, result, allocator))
  {
    HeldWhenLetGo(s, id);
    NothingInFlight(s, id);
    PayloadRole(s.cells, id);
    AppliedIs(s, id, result, allocator);
    ReleaseKeepsInv(s.(phases := s.phases - {id}), id, result);
  }

  // ----- Setup -----

  lemma GrowingKeepsPhases(
    requests: Requests, more: Requests, rows: Rows, cells: CellMap<Payload>, phases: map<CellId, Phase>, now: Time,
    log: seq<Trace>)
    requires PhasesFit(requests, rows, cells, phases, now, log)
    requires forall t :: t in requests ==> t in more && more[t] == requests[t]
    ensures PhasesFit(more, rows, cells, phases, now, log)
  {
    forall o | o in phases ensures PhaseFits(more, rows, cells, now, log, CurrentPayload(cells[o]), phases[o]) {
      assert PhaseFits(requests, rows, cells, now, log, CurrentPayload(cells[o]), phases[o]);
    }
  }

  lemma GrowingKeepsFit(requests: Requests, more: Requests, rows: Rows, now: Time, cells: CellMap<Payload>)
    requires CellsFit(requests, rows, now, cells) && forall t :: t in requests ==> t in more && more[t] == requests[t]
    ensures CellsFit(more, rows, now, cells)
  {
    forall id | id in cells ensures CellFits(more, rows, now, cells[id]) {
      assert CellFits(requests, rows, now, cells[id]);
    }
  }

  lemma StoringRequestKeepsInv(s: Sys, t: Token, stored: StoredRequest)
    requires Inv(s) && t !in s.db.requests && !MessageIdInUse(s.db, stored.messageId)
    ensures Inv(s.(db := s.db.(requests := s.db.requests[t := stored])))
  {
    GrowingKeepsPhases(s.db.requests, s.db.requests[t := stored], s.db.progress, s.cells, s.phases, s.now, s.log);
    GrowingKeepsFit(s.db.requests, s.db.requests[t := stored], s.db.progress, s.now, s.cells);
  }

  /** Rows are added for a token that had none, all fresh. */
  ghost predicate Opens(rows: Rows, after: Rows, t: Token) {
    && rows.Keys <= after.Keys
    && (forall k :: k in rows ==> k.0 != t && after[k] == rows[k])
    && (forall k :: k in after && k !in rows ==> k.0 == t && Fresh(after[k]) && after[k].pmuid.None?)
  }

  lemma OpeningKeepsData(requests: Requests, rows: Rows, after: Rows, owners: map<Key, string>, t: Token)
    requires DataFits(requests, rows, owners) && Opens(rows, after, t) && t in requests
    ensures DataFits(requests, after, owners)
  {
    forall k, l | k in after && l in after && k.0 == l.0 ensures Compatible(KindOf(after[k]), KindOf(after[l])) {
      assert k in rows && l in rows ==> Compatible(KindOf(rows[k]), KindOf(rows[l]));
    }
  }

  /** No fanout or verify cell serves the token. */
  ghost predicate Unserved(cells: CellMap<Payload>, t: Token) {
    forall o :: o in cells ==>
      RoleOf(cells[o]) != FanoutRole(t) && (RoleOf(cells[o]).VerifyRole? ==> RoleOf(cells[o]).key.0 != t)
  }

  lemma UnservedUndisturbed(
    rows: Rows, after: Rows, cells: CellMap<Payload>, phases: map<CellId, Phase>, id: CellId, t: Token)
    requires CellsSane(cells) && Unserved(cells, t) && SoleSender(cells, phases, id, t) && id !in phases
    ensures Undisturbed(rows, after, cells, phases, t)
  {
    forall o | o in phases && o in cells ensures PayloadToken(CurrentPayload(cells[o])) != t {
      PayloadRole(cells, o);
      assert RoleOf(cells[o]) != FanoutRole(t);
    }
  }

  lemma OpeningKeepsKeys(requests: Requests, rows: Rows, after: Rows, now: Time, log: seq<Trace>, t: Token)
    requires TraceFits(requests, rows, now, log) && Opens(rows, after, t)
    ensures forall k :: k in after && k.0 == t ==> KeyFits(after, now, k, Summarise(log, k))
  {
    forall k | k in after && k.0 == t ensures KeyFits(after, now, k, Summarise(log, k)) {
      assert KeyFits(rows, now, k, Summarise(log, k));
    }
  }

  lemma OpeningKeepsInv(s: Sys, after: Rows, id: CellId, t: Token)
    requires Inv(s) && Opens(s.db.progress, after, t) && t in s.db.requests
    requires Unserved(s.cells, t) && SoleSender(s.cells, s.phases, id, t) && id !in s.phases
    ensures Inv(s.(db := s.db.(progress := after)))
  {
    OpeningKeepsData(s.db.requests, s.db.progress, after, s.db.owners, t);
    UnservedUndisturbed(s.db.progress, after, s.cells, s.phases, id, t);
    OpeningKeepsKeys(s.db.requests, s.db.progress, after, s.now, s.log, t);
    RowChangeKeepsInv(s, after, t);
  }

  lemma OwningKeepsInv(s: Sys, owners: map<Key, string>)
    requires Inv(s) && forall k :: k in owners ==> k in s.db.progress
    ensures Inv(s.(db := s.db.(owners := owners)))
  {
  }

  lemma NewTokenUnserved(requests: Requests, rows: Rows, owners: map<Key, string>, now: Time, cells: CellMap<Payload>, t: Token)
    requires CellsFit(requests, rows, now, cells) && KeysHold(requests, rows, owners) && t !in requests
    ensures Unserved(cells, t) && forall k :: k in rows ==> k.0 != t
  {
    forall o | o in cells
      ensures RoleOf(cells[o]) != FanoutRole(t) && (RoleOf(cells[o]).VerifyRole? ==> RoleOf(cells[o]).key.0 != t)
    {
      assert CellFits(requests, rows, now, cells[o]);
    }
  }

  lemma InsertOpens(db: Database, q: SendRequest)
    requires DistinctRecipients(q) && (forall k :: k in db.progress ==> k.0 != q.token)
    requires forall k :: k in db.owners ==> k in db.progress
    ensures Opens(db.progress, InsertRows(db.progress, q, 0), q.token)
    ensures forall k :: k in InsertOwners(db.owners, q, 0) ==> k in InsertRows(db.progress, q, 0)
  {
    InsertRowsContents(db.progress, q, 0);
    InsertOwnersContents(db.owners, q, 0);
    var after := InsertRows(db.progress, q, 0);
    forall k | k in after && k !in db.progress ensures k.0 == q.token && Fresh(after[k]) && after[k].pmuid.None? {
      var i :| 0 <= i < |q.recipients| && q.recipients[i].email == k.1;
      assert k == (q.token, q.recipients[i].email);
    }
  }

  lemma NewRequestKeepsInv(s: Sys, id: CellId, q: SendRequest, messageId: MessageId)
    requires Inv(s) && DistinctRecipients(q) && q.token !in s.db.requests && !MessageIdInUse(s.db, messageId)
    requires SoleSender(s.cells, s.phases, id, q.token) && id !in s.phases
    ensures Inv(s.(db := s.db.(requests := s.db.requests[q.token := StoredRequest(messageId, q.content)],
                               progress := InsertRows(s.db.progress, q, 0), owners := InsertOwners(s.db.owners, q, 0))))
  {
    NewTokenUnserved(s.db.requests, s.db.progress, s.db.owners, s.now, s.cells, q.token);
    InsertOpens(s.db, q);
    StoringRequestKeepsInv(s, q.token, StoredRequest(messageId, q.content));
    var s1 := s.(db := s.db.(requests := s.db.requests[q.token := StoredRequest(messageId, q.content)]));
    OpeningKeepsInv(s1, InsertRows(s.db.progress, q, 0), id, q.token);
    OwningKeepsInv(s1.(db := s1.db.(progress := InsertRows(s.db.progress, q, 0))), InsertOwners(s.db.owners, q, 0));
  }

  lemma InsertKeepsInv(s: Sys, id: CellId, q: SendRequest, messageId: MessageId)
    requires Inv(s) && DistinctRecipients(q) && InsertRequest(s.db, q, messageId).Ok?
    requires SoleSender(s.cells, s.phases, id, q.token) && id !in s.phases
    ensures Inv(s.(db := InsertRequest(s.db, q, messageId).value))
  {
    if q.token !in s.db.requests {
      NewRequestKeepsInv(s, id, q, messageId);
    }
  }

  /** Setup adds only fresh rows. */
  lemma InsertInFlight(db: Database, q: SendRequest, messageId: MessageId)
    requires DistinctRecipients(q) && InsertRequest(db, q, messageId).Ok?
    requires forall k :: k in db.owners ==> k in db.progress
    requires forall k :: k in db.progress && k.0 == q.token ==> KindOf(db.progress[k]) != KInFlight
    ensures var after := InsertRequest(db, q, messageId).value.progress;
      forall k :: k in after && k.0 == q.token ==> KindOf(after[k]) != KInFlight
  {
    if q.token !in db.requests { InsertOpens(db, q); }
  }

  lemma SetupWork(db: Database, q: SendRequest, messageId: MessageId)
    ensures RunWorks(db, [EmailHandlers.Insert(q, messageId)]) == InsertRequest(db, q, messageId)
  {
    assert [EmailHandlers.Insert(q, messageId)][1..] == [];
  }

  lemma SetupKeepsInv(s: Sys, id: CellId, result: EmailResult, allocator: Allocator)
    requires Inv(s) && Applying(s, id, result, allocator) && s.phases[id].SetupReady?
    ensures Inv(Applied(s, id, result, allocator))
  {
    var q, messageId := CurrentPayload(s.cells[id]).request, s.phases[id].messageId;
    HeldWhenLetGo(s, id);
    NothingInFlight(s, id);
    PayloadRole(s.cells, id);
    SenderIsSole(s.cells, s.phases - {id}, id, q.token);
    SetupWork(s.db, q, messageId);
    AppliedIs(s, id, result, allocator);
    var s1 := s.(phases := s.phases - {id});
    InsertKeepsInv(s1, id, q, messageId);
    InsertInFlight(s.db, q, messageId);
    ReleaseKeepsInv(s1.(db := InsertRequest(s.db, q, messageId).value), id, result);
  }

  // ----- Changing the unsettled rows of a token -----

  /** Every row of the token changes from kind `source` to kind `target` or stays as
      it is because it is settled. */
  ghost predicate Shifts(rows: Rows, after: Rows, t: Token, source: Kind, target: Kind) {
    && after.Keys == rows.Keys && OnlyKind(rows, t, source)
    && (forall k :: k in rows && (k.0 != t || KindOf(rows[k]) == KSettled) ==> after[k] == rows[k])
    && (forall k :: k in rows && k.0 == t && KindOf(rows[k]) == source ==>
          KindOf(after[k]) == target && after[k].submittedAt == rows[k].submittedAt && after[k].pmuid == rows[k].pmuid)
  }

  lemma ShiftingKeepsData(requests: Requests, rows: Rows, after: Rows, owners: map<Key, string>, t: Token, source: Kind, target: Kind)
    requires DataFits(requests, rows, owners) && Shifts(rows, after, t, source, target)
    requires (source == KInFlight && target == KRecovery) || (source == KRecovery && target == KWaiting)
    ensures DataFits(requests, after, owners)
  {
    forall k, l | k in after && l in after && k.0 == l.0 ensures Compatible(KindOf(after[k]), KindOf(after[l])) {
      assert Compatible(KindOf(rows[k]), KindOf(rows[l]));
    }
    forall k | k in after ensures RowSane(after[k]) { assert RowSane(rows[k]); }
  }

  lemma ShiftingKeepsKeys(requests: Requests, rows: Rows, after: Rows, now: Time, log: seq<Trace>, t: Token, source: Kind, target: Kind)
    requires TraceFits(requests, rows, now, log) && Shifts(rows, after, t, source, target)
    requires (source == KInFlight && target == KRecovery) || (source == KRecovery && target == KWaiting)
    ensures forall k :: k in after && k.0 == t ==> KeyFits(after, now, k, Summarise(log, k))
  {
    forall k | k in after && k.0 == t ensures KeyFits(after, now, k, Summarise(log, k)) {
      assert KeyFits(rows, now, k, Summarise(log, k));
    }
  }

  lemma ShiftingKeepsInFlight(
    rows: Rows, after: Rows, cells: CellMap<Payload>, senders: map<Token, CellId>, phases: map<CellId, Phase>,
    mode: Mode, t: Token, source: Kind, target: Kind)
    requires InFlightOwned(rows, cells, senders, phases, mode) && Shifts(rows, after, t, source, target) && target != KInFlight
    ensures InFlightOwned(after, cells, senders, phases, mode)
    ensures forall k :: k in after && k.0 == t ==> KindOf(after[k]) != KInFlight
  {
    assert forall k :: k in after && KindOf(after[k]) == KInFlight ==> after[k] == rows[k];
  }

  lemma ShiftingKeepsInv(s: Sys, after: Rows, id: CellId, t: Token, source: Kind, target: Kind)
    requires Inv(s) && Shifts(s.db.progress, after, t, source, target)
    requires (source == KInFlight && target == KRecovery) || (source == KRecovery && target == KWaiting)
    requires SoleSender(s.cells, s.phases, id, t) && id !in s.phases
    ensures Inv(s.(db := s.db.(progress := after)))
  {
    var rows := s.db.progress;
    ShiftingKeepsData(s.db.requests, rows, after, s.db.owners, t, source, target);
    ShiftingKeepsKeys(s.db.requests, rows, after, s.now, s.log, t, source, target);
    ShiftingKeepsInFlight(rows, after, s.cells, s.senders, s.phases, s.mode, t, source, target);
    SettledUnaffected(s.db.requests, rows, after, s.now, s.cells, t);
    SettledUndisturbed(s.db.requests, rows, after, s.now, s.cells, s.phases, s.log, id, t);
    RowChangeKeepsInv(s, after, t);
  }

  // ----- Post -----

  lemma RecoverShifts(rows: Rows, t: Token)
    requires OnlyKind(rows, t, KInFlight)
    ensures Shifts(rows, RecoverWork(rows, t), t, KInFlight, KRecovery)
  {
  }

  lemma SingleWork(db: Database, work: Work)
    ensures RunWorks(db, [work]) == RunWork(db, work)
  {
    assert [work][1..] == [];
  }

  lemma ShiftAndRelease(s: Sys, id: CellId, t: Token, after: Rows, result: EmailResult, source: Kind, target: Kind)
    requires Inv(s) && Held(s, id) && RoleOf(s.cells[id]) == SendRole(t) && SoleSender(s.cells, s.phases, id, t)
    requires Shifts(s.db.progress, after, t, source, target) && (result.Retry? || result.RetrySequence?)
    requires (source == KInFlight && target == KRecovery) || (source == KRecovery && target == KWaiting)
    ensures Inv(Finished(s.(db := s.db.(progress := after)), id, result))
  {
    ShiftingKeepsInv(s, after, id, t, source, target);
    ShiftingKeepsInFlight(s.db.progress, after, s.cells, s.senders, s.phases, s.mode, t, source, target);
    ReleaseKeepsInv(s.(db := s.db.(progress := after)), id, result);
  }

  lemma AmbiguousKeepsInv(s: Sys, id: CellId, t: Token, result: EmailResult)
    requires Inv(s) && Held(s, id) && RoleOf(s.cells[id]) == SendRole(t) && SoleSender(s.cells, s.phases, id, t)
    requires OnlyKind(s.db.progress, t, KInFlight) && result == RetrySequence(0, [], [EmailHandlers.Recover(t)])
    ensures Inv(Finished(s.(db := s.db.(progress := RecoverWork(s.db.progress, t))), id, result))
  {
    RecoverShifts(s.db.progress, t);
    ShiftAndRelease(s, id, t, RecoverWork(s.db.progress, t), result, KInFlight, KRecovery);
  }

  /** The rows after accepting a batch recipient by recipient. */
  function AcceptedRows(rows: Rows, t: Token, pending: seq<Recipient>, ids: seq<Pmuid>): Rows
    requires |pending| <= |ids|
    decreases |pending|
  {
    if pending == [] then rows
    else AcceptedRows(AcceptWork(rows, (t, pending[0]), ids[0]), t, pending[1..], ids[1..])
  }

  lemma {:induction false} AcceptsRun(db: Database, t: Token, pending: seq<Recipient>, ids: seq<Pmuid>)
    requires |pending| <= |ids|
    ensures RunWorks(db, Accepts(t, pending, ids)) == Ok(db.(progress := AcceptedRows(db.progress, t, pending, ids)))
    decreases |pending|
  {
    if pending != [] {
      var next := db.(progress := AcceptWork(db.progress, (t, pending[0]), ids[0]));
      AcceptsRun(next, t, pending[1..], ids[1..]);
      assert Accepts(t, pending, ids)[1..] == Accepts(t, pending[1..], ids[1..]);
    }
  }

  lemma SettlesTransitive(a: Rows, b: Rows, c: Rows)
    requires Settles(a, b) && Settles(b, c)
    ensures Settles(a, c)
  {
  }

  /** Accepting the batch settles every recipient it names that is pending. */
  lemma {:induction false} AcceptsSettle(rows: Rows, t: Token, pending: seq<Recipient>, ids: seq<Pmuid>)
    requires |pending| <= |ids| && RowsSane(rows)
    ensures var after := AcceptedRows(rows, t, pending, ids);
      && Settles(rows, after) && RowsSane(after)
      && forall i :: 0 <= i < |pending| && (t, pending[i]) in rows ==> after[(t, pending[i])].state != Pending
    decreases |pending|
  {
    if pending != [] {
      var key := (t, pending[0]);
      var next := AcceptWork(rows, key, ids[0]);
      AcceptSettles(rows, key, Pending, ids[0]);
      AcceptsSettle(next, t, pending[1..], ids[1..]);
      var after := AcceptedRows(next, t, pending[1..], ids[1..]);
      SettlesTransitive(rows, next, after);
      forall i | 0 <= i < |pending| && (t, pending[i]) in rows ensures after[(t, pending[i])].state != Pending {
        if i > 0 {
          assert pending[i] == pending[1..][i - 1];
        } else if key in rows {
          assert KindOf(next[key]) == KSettled || KindOf(next[key]) == KRecovery || KindOf(next[key]) == KWaiting;
        }
      }
    }
  }

  lemma AcceptSettles(rows: Rows, key: Key, source: RowState, pmuid: Pmuid)
    requires RowsSane(rows) && (source == Pending || source == RecoveryWaiting)
    ensures var after := AcceptFrom(rows, key, source, pmuid);
      && Settles(rows, after) && RowsSane(after)
      && (key in rows && rows[key].state == source ==> KindOf(after[key]) == KSettled)
      && (key in rows ==> after[key].state != source)
  {
    forall k | k in rows ensures RowSane(AcceptFrom(rows, key, source, pmuid)[k]) { assert RowSane(rows[k]); }
  }

  lemma AcceptedAllSettled(rows: Rows, after: Rows, t: Token, pending: seq<Recipient>)
    requires OnlyKind(rows, t, KInFlight) && Covers(rows, t, KInFlight, pending) && Settles(rows, after)
    requires forall i :: 0 <= i < |pending| && (t, pending[i]) in rows ==> after[(t, pending[i])].state != Pending
    ensures forall k :: k in after && k.0 == t ==> KindOf(after[k]) == KSettled
  {
    forall k | k in after && k.0 == t ensures KindOf(after[k]) == KSettled {
      if KindOf(rows[k]) == KInFlight {
        var i :| 0 <= i < |pending| && pending[i] == k.1;
        assert (t, pending[i]) == k;
      }
    }
  }

  lemma AcceptedKeepsInv(s: Sys, id: CellId, t: Token, after: Rows, result: EmailResult)
    requires Inv(s) && Held(s, id) && RoleOf(s.cells[id]) == SendRole(t) && result.Complete?
    requires Settles(s.db.progress, after) && RowsSane(after)
    requires forall k :: k in after && k.0 == t ==> KindOf(after[k]) == KSettled
    ensures Inv(Finished(s.(db := s.db.(progress := after)), id, result))
  {
    SettlingKeepsInv(s, after);
    ReleaseKeepsInv(s.(db := s.db.(progress := after)), id, result);
  }

  /** The rows Post leaves behind when its result is applied. */
  function PostRows(rows: Rows, t: Token, pending: seq<Recipient>, sendAnswer: SendAnswer): Rows {
    if Usable(sendAnswer, pending) then AcceptedRows(rows, t, pending, sendAnswer.ids) else RecoverWork(rows, t)
  }

  lemma PostWork(db: Database, t: Token, pending: seq<Recipient>, sendAnswer: SendAnswer)
    ensures RunWorks(db, PostResult(t, pending, sendAnswer).works)
      == Ok(db.(progress := PostRows(db.progress, t, pending, sendAnswer)))
  {
    if Usable(sendAnswer, pending) {
      AcceptsRun(db, t, pending, sendAnswer.ids);
    } else {
      SingleWork(db, EmailHandlers.Recover(t));
    }
  }

  lemma AnsweredKeepsInv(s: Sys, id: CellId, t: Token, pending: seq<Recipient>, sendAnswer: SendAnswer)
    requires Inv(s) && Held(s, id) && RoleOf(s.cells[id]) == SendRole(t) && SoleSender(s.cells, s.phases, id, t)
    requires OnlyKind(s.db.progress, t, KInFlight) && Covers(s.db.progress, t, KInFlight, pending)
    ensures Inv(Finished(s.(db := s.db.(progress := PostRows(s.db.progress, t, pending, sendAnswer))), id,
                         PostResult(t, pending, sendAnswer)))
  {
    var after := PostRows(s.db.progress, t, pending, sendAnswer);
    if Usable(sendAnswer, pending) {
      AcceptsSettle(s.db.progress, t, pending, sendAnswer.ids);
      AcceptedAllSettled(s.db.progress, after, t, pending);
      AcceptedKeepsInv(s, id, t, after, PostResult(t, pending, sendAnswer));
    } else {
      AmbiguousKeepsInv(s, id, t, PostResult(t, pending, sendAnswer));
    }
  }

  lemma PostKeepsInv(s: Sys, id: CellId, result: EmailResult, allocator: Allocator)
    requires Inv(s) && Applying(s, id, result, allocator) && s.phases[id].PostAnswered?
    ensures Inv(Applied(s, id, result, allocator))
  {
    var t, phase := CurrentPayload(s.cells[id]).token, s.phases[id];
    HeldWhenLetGo(s, id);
    PayloadRole(s.cells, id);
    SenderIsSole(s.cells, s.phases - {id}, id, t);
    AppliedIs(s, id, result, allocator);
    PostWork(s.db, t, phase.pending, phase.sendAnswer);
    AnsweredKeepsInv(s.(phases := s.phases - {id}), id, t, phase.pending, phase.sendAnswer);
  }

  // ----- Verify -----

  /** While a row waits, no worker relies on the token's rows except through that row's own verify cell. */
  lemma WaitingUndisturbed(
    requests: Requests, rows: Rows, after: Rows, now: Time, cells: CellMap<Payload>, phases: map<CellId, Phase>,
    log: seq<Trace>, key: Key)
    requires CellsSane(cells) && CellsFit(requests, rows, now, cells) && PhasesFit(requests, rows, cells, phases, now, log)
    requires key in rows && KindOf(rows[key]) == KWaiting && after.Keys == rows.Keys
    requires (forall k :: k in rows && k != key ==> after[k] == rows[k]) && NoneLive(cells, VerifyRole(key))
    ensures Undisturbed(rows, after, cells, phases, key.0)
  {
    forall o | o in phases && o in cells && PayloadToken(CurrentPayload(cells[o])) == key.0
      ensures var payload := CurrentPayload(cells[o]);
        || Detached(phases[o]) || phases[o].FanoutRead?
        || (payload.VerifyStep? && payload.key in rows && payload.key in after && after[payload.key] == rows[payload.key])
    {
      PayloadRole(cells, o);
      assert CellFits(requests, rows, now, cells[o]);
      assert PhaseFits(requests, rows, cells, now, log, CurrentPayload(cells[o]), phases[o]);
    }
  }

  /** Only the row of `key` changes, from waiting to fresh. */
  ghost predicate Reopens(rows: Rows, after: Rows, key: Key) {
    && key in rows && KindOf(rows[key]) == KWaiting && after == rows[key := rows[key].(state := Pending, submittedAt := None)]
  }

  lemma ReopeningKeepsData(requests: Requests, rows: Rows, after: Rows, owners: map<Key, string>, key: Key)
    requires DataFits(requests, rows, owners) && Reopens(rows, after, key)
    ensures DataFits(requests, after, owners)
  {
    forall k, l | k in after && l in after && k.0 == l.0 ensures Compatible(KindOf(after[k]), KindOf(after[l])) {
      assert Compatible(KindOf(rows[k]), KindOf(rows[l]));
      assert Compatible(KindOf(rows[key]), KindOf(rows[l])) || l.0 != key.0;
      assert Compatible(KindOf(rows[key]), KindOf(rows[k])) || k.0 != key.0;
    }
    forall k | k in after ensures RowSane(after[k]) { assert RowSane(rows[k]); }
  }

  lemma ReopeningKeepsKeys(requests: Requests, rows: Rows, after: Rows, now: Time, log: seq<Trace>, key: Key)
    requires TraceFits(requests, rows, now, log) && Reopens(rows, after, key) && !Summarise(log, key).outstanding
    ensures forall k :: k in after && k.0 == key.0 ==> KeyFits(after, now, k, Summarise(log, k))
  {
    forall k | k in after && k.0 == key.0 ensures KeyFits(after, now, k, Summarise(log, k)) {
      assert KeyFits(rows, now, k, Summarise(log, k));
    }
  }

  lemma ReopeningKeepsInFlight(
    rows: Rows, after: Rows, cells: CellMap<Payload>, senders: map<Token, CellId>, phases: map<CellId, Phase>, mode: Mode,
    key: Key)
    requires InFlightOwned(rows, cells, senders, phases, mode) && Reopens(rows, after, key)
    ensures InFlightOwned(after, cells, senders, phases, mode)
  {
    assert forall k :: k in after && KindOf(after[k]) == KInFlight ==> after[k] == rows[k];
  }

  lemma ReopeningKeepsInv(s: Sys, after: Rows, key: Key)
    requires Inv(s) && Reopens(s.db.progress, after, key) && !Summarise(s.log, key).outstanding
    requires NoneLive(s.cells, VerifyRole(key)) && NoneLive(s.cells, FanoutRole(key.0))
    ensures Inv(s.(db := s.db.(progress := after)))
  {
    var rows := s.db.progress;
    ReopeningKeepsData(s.db.requests, rows, after, s.db.owners, key);
    ReopeningKeepsKeys(s.db.requests, rows, after, s.now, s.log, key);
    ReopeningKeepsInFlight(rows, after, s.cells, s.senders, s.phases, s.mode, key);
    WaitingUndisturbed(s.db.requests, rows, after, s.now, s.cells, s.phases, s.log, key);
    ReopeningUnaffected(s.db.requests, rows, after, s.now, s.cells, key);
    RowChangeKeepsInv(s, after, key.0);
  }

  lemma ReopeningUnaffected(requests: Requests, rows: Rows, after: Rows, now: Time, cells: CellMap<Payload>, key: Key)
    requires CellsFit(requests, rows, now, cells) && Reopens(rows, after, key)
    requires NoneLive(cells, VerifyRole(key)) && NoneLive(cells, FanoutRole(key.0))
    ensures CellsUnaffected(rows, after, cells, key.0)
  {
    forall id | id in cells && RoleOf(cells[id]).VerifyRole? && RoleOf(cells[id]).key.0 == key.0
      ensures var k := RoleOf(cells[id]).key; k in rows && k in after && after[k] == rows[k]
    {
      assert CellFits(requests, rows, now, cells[id]);
      assert RoleOf(cells[id]) != VerifyRole(key);
    }
  }

  /** Once a verify cell is gone, no other serves its recipient, and a live
      fanout of its token would have found the row settled. */
  lemma VerifyGone(rows: Rows, before: CellMap<Payload>, after: CellMap<Payload>, id: CellId, key: Key)
    requires CellsSane(before) && FanoutApart(rows, before) && id in before && RoleOf(before[id]) == VerifyRole(key)
    requires after == before - {id} && key in rows && KindOf(rows[key]) == KWaiting
    ensures NoneLive(after, VerifyRole(key)) && NoneLive(after, FanoutRole(key.0))
  {
    forall o | o in after ensures RoleOf(after[o]) != VerifyRole(key) && RoleOf(after[o]) != FanoutRole(key.0) {
      assert RoleOf(before[o]) != RoleOf(before[id]);
      assert Apart(rows, RoleOf(before[o]), RoleOf(before[id]));
    }
  }

  lemma AbsentReopens(rows: Rows, key: Key)
    ensures if key in rows && KindOf(rows[key]) == KWaiting then Reopens(rows, AbsentWork(rows, key), key)
            else AbsentWork(rows, key) == rows
  {
  }

  lemma AbsentKeepsInv(s: Sys, id: CellId, key: Key)
    requires Inv(s) && Held(s, id) && RoleOf(s.cells[id]) == VerifyRole(key) && |s.cells[id].steps| == 1
    requires key in s.db.progress && KindOf(s.db.progress[key]) == KWaiting && !Summarise(s.log, key).outstanding
    ensures var result := Complete([], [Absent(key)]);
      Inv(Finished(s.(db := s.db.(progress := AbsentWork(s.db.progress, key))), id, result))
  {
    var result: EmailResult := Complete([], [Absent(key)]);
    ReleaseKeepsInv(s, id, result);
    AbsentReopens(s.db.progress, key);
    VerifyGone(s.db.progress, s.cells, Finished(s, id, result).cells, id, key);
    ReopeningKeepsInv(Finished(s, id, result), AbsentWork(s.db.progress, key), key);
  }

  lemma FoundKeepsInv(s: Sys, id: CellId, key: Key, pmuid: Pmuid)
    requires Inv(s) && Held(s, id) && RoleOf(s.cells[id]) == VerifyRole(key) && |s.cells[id].steps| == 1
    ensures var result := Complete([], [AcceptRecovered(key, pmuid)]);
      Inv(Finished(s.(db := s.db.(progress := AcceptRecoveredWork(s.db.progress, key, pmuid))), id, result))
  {
    AcceptSettles(s.db.progress, key, RecoveryWaiting, pmuid);
    SettlingKeepsInv(s, AcceptRecoveredWork(s.db.progress, key, pmuid));
    ReleaseKeepsInv(s.(db := s.db.(progress := AcceptRecoveredWork(s.db.progress, key, pmuid))), id,
                    Complete([], [AcceptRecovered(key, pmuid)]));
  }

  lemma NotFoundKeepsInv(s: Sys, id: CellId, key: Key)
    requires Inv(s) && Held(s, id) && RoleOf(s.cells[id]) == VerifyRole(key) && |s.cells[id].steps| == 1
    requires key in s.db.progress && (KindOf(s.db.progress[key]) == KWaiting ==> !Summarise(s.log, key).outstanding)
    ensures var result := Complete([], [Absent(key)]);
      Inv(Finished(s.(db := s.db.(progress := AbsentWork(s.db.progress, key))), id, result))
  {
    if KindOf(s.db.progress[key]) == KWaiting {
      AbsentKeepsInv(s, id, key);
    } else {
      AbsentReopens(s.db.progress, key);
      assert s.db.(progress := AbsentWork(s.db.progress, key)) == s.db;
      ReleaseKeepsInv(s, id, Complete([], [Absent(key)]));
    }
  }

  lemma VerdictWork(db: Database, key: Key, answer: Answer)
    requires VerifyResult(key, answer).Some?
    ensures RunWorks(db, VerifyResult(key, answer).value.works)
      == Ok(db.(progress := if answer == NotFound then AbsentWork(db.progress, key)
                            else AcceptRecoveredWork(db.progress, key, answer.pmuid)))
  {
    SingleWork(db, VerifyResult(key, answer).value.works[0]);
  }

  lemma VerdictKeepsInv(s: Sys, id: CellId, key: Key, answer: Answer)
    requires Inv(s) && Held(s, id) && RoleOf(s.cells[id]) == VerifyRole(key) && |s.cells[id].steps| == 1
    requires key in s.db.progress && VerifyResult(key, answer).Some?
    requires answer == NotFound && KindOf(s.db.progress[key]) == KWaiting ==> !Summarise(s.log, key).outstanding
    ensures var rows := if answer == NotFound then AbsentWork(s.db.progress, key)
                        else AcceptRecoveredWork(s.db.progress, key, answer.pmuid);
      Inv(Finished(s.(db := s.db.(progress := rows)), id, VerifyResult(key, answer).value))
  {
    if answer == NotFound {
      NotFoundKeepsInv(s, id, key);
    } else {
      FoundKeepsInv(s, id, key, answer.pmuid);
    }
  }

  lemma VerifyKeepsInv(s: Sys, id: CellId, result: EmailResult, allocator: Allocator)
    requires Inv(s) && Applying(s, id, result, allocator) && s.phases[id].VerifyAnswered?
    ensures Inv(Applied(s, id, result, allocator))
  {
    var key, answer := CurrentPayload(s.cells[id]).key, s.phases[id].answer;
    HeldWhenLetGo(s, id);
    PayloadRole(s.cells, id);
    AppliedIs(s, id, result, allocator);
    VerdictWork(s.db, key, answer);
    VerdictKeepsInv(s.(phases := s.phases - {id}), id, key, answer);
  }

  // ----- Results with new cells -----

  lemma NewcomersAreNoSenders(
    senders: map<Token, CellId>, cells: CellMap<Payload>, settled: CellMap<Payload>, added: seq<Request<Payload>>)
    requires (forall t :: t in senders ==> senders[t] in cells) && settled.Keys <= cells.Keys
    requires forall i :: 0 <= i < |added| ==> added[i].id !in cells
    requires forall i, j :: 0 <= i < j < |added| ==> added[i].id != added[j].id
    ensures SendersAfter(senders, Cells.Insert(settled, added)) == SendersAfter(senders, settled)
  {
    InsertContents(settled, added);
  }

  lemma AppliedWithCellsIs(s: Sys, id: CellId, result: EmailResult, allocator: Allocator)
    requires id in s.cells && s.cells[id].id == id && CanApply(s, id, result, allocator)
    requires SendersMatch(s.cells, s.senders)
    ensures Additions(s.cells.Keys, result.newCells, allocator).Ok?
    ensures
      var added := Additions(s.cells.Keys, result.newCells, allocator).value;
      var s1 := Finished(s.(phases := s.phases - {id}, db := RunWorks(s.db, result.works).value), id, result);
      Applied(s, id, result, allocator) == s1.(cells := Cells.Insert(s1.cells, added))
  {
    var added := Additions(s.cells.Keys, result.newCells, allocator).value;
    AdditionsFacts(s.cells.Keys, result.newCells, allocator);
    NewcomersAreNoSenders(s.senders, s.cells, Settle(s.cells, s.cells[id], result, s.now), added);
  }

  // ----- Recovery -----

  lemma WaitShifts(rows: Rows, t: Token)
    requires OnlyKind(rows, t, KRecovery)
    ensures Shifts(rows, WaitWork(rows, t), t, KRecovery, KWaiting)
  {
  }

  function FanoutCell(id: CellId, t: Token, deadline: Time): Cell<Payload> {
    NewCell(Request(id, [StepOf(FanoutStep(t))], Some(deadline)))
  }

  /** The rows a new fanout of the token would meet. */
  ghost predicate RoundDue(rows: Rows, t: Token, deadline: Time) {
    forall k :: k in rows && k.0 == t ==> DueBy(rows[k], deadline)
  }

  /** Verify cells of the token are left over and their rows are settled. */
  ghost predicate LeftOver(rows: Rows, cells: CellMap<Payload>, t: Token) {
    forall o :: o in cells ==> Apart(rows, FanoutRole(t), RoleOf(cells[o]))
  }

  lemma SchedulingKeepsInv(s: Sys, fanout: CellId, t: Token, deadline: Time)
    requires Inv(s) && fanout !in s.cells && t in s.db.requests && NoneLive(s.cells, FanoutRole(t))
    requires RoundDue(s.db.progress, t, deadline) && LeftOver(s.db.progress, s.cells, t)
    requires forall o :: o in s.phases && s.phases[o].RecoveryRead? ==> CurrentPayload(s.cells[o]) != RecoveryStep(t)
    ensures Inv(s.(cells := s.cells[fanout := FanoutCell(fanout, t, deadline)]))
  {
    AddingKeepsInv(s, s.cells[fanout := FanoutCell(fanout, t, deadline)], FanoutCell(fanout, t, deadline));
  }

  lemma LeftOverSettled(requests: Requests, rows: Rows, after: Rows, now: Time, cells: CellMap<Payload>, t: Token)
    requires CellsFit(requests, rows, now, cells) && Shifts(rows, after, t, KRecovery, KWaiting)
    ensures LeftOver(after, cells, t)
  {
    forall o | o in cells ensures Apart(after, FanoutRole(t), RoleOf(cells[o])) {
      assert CellFits(requests, rows, now, cells[o]);
    }
  }

  /** What the release of cell `id` leaves of facts about roles and workers. */
  lemma FactsSurviveRelease(
    rows: Rows, before: CellMap<Payload>, after: CellMap<Payload>, phases: map<CellId, Phase>, id: CellId, t: Token)
    requires Released(before, after, id) && NoneLive(before, FanoutRole(t)) && LeftOver(rows, before, t)
    requires id !in phases && (forall o :: o in phases ==> o in before)
    requires SoleSender(before, phases, id, t) && WellFormed(before)
    ensures NoneLive(after, FanoutRole(t)) && LeftOver(rows, after, t)
    ensures forall o :: o in phases && phases[o].RecoveryRead? ==> o in after && CurrentPayload(before[o]) != RecoveryStep(t)
  {
    ReleaseKeepsRoles(before, after, id);
    forall o | o in after ensures Apart(rows, FanoutRole(t), RoleOf(after[o])) {
      assert Apart(rows, FanoutRole(t), RoleOf(before[o]));
    }
  }

  /** What scheduling needs, once the rows wait and the Send cell is released. */
  lemma RoundFacts(
    requests: Requests, rows: Rows, cells: CellMap<Payload>, phases: map<CellId, Phase>, now: Time, log: seq<Trace>,
    id: CellId, t: Token, deadline: Time, after: CellMap<Payload>)
    requires CellsFit(requests, rows, now, cells) && PhasesFit(requests, rows, cells, phases, now, log) && WellFormed(cells)
    requires PhaseFits(requests, rows, cells, now, log, RecoveryStep(t), RecoveryRead(deadline))
    requires Released(cells, after, id) && SoleSender(cells, phases, id, t) && id !in phases
    ensures t in requests && RoundDue(WaitWork(rows, t), t, deadline)
    ensures NoneLive(after, FanoutRole(t)) && LeftOver(WaitWork(rows, t), after, t)
    ensures forall o :: o in phases && phases[o].RecoveryRead? ==>
      o in after && after[o] == cells[o] && CurrentPayload(cells[o]) != RecoveryStep(t)
  {
    WaitShifts(rows, t);
    LeftOverSettled(requests, rows, WaitWork(rows, t), now, cells, t);
    FactsSurviveRelease(WaitWork(rows, t), cells, after, phases, id, t);
  }

  lemma WaitingKeepsInv(s: Sys, id: CellId, t: Token, deadline: Time)
    requires Inv(s) && Held(s, id) && RoleOf(s.cells[id]) == SendRole(t) && SoleSender(s.cells, s.phases, id, t)
    requires OnlyKind(s.db.progress, t, KRecovery)
    ensures Inv(Finished(s.(db := s.db.(progress := WaitWork(s.db.progress, t))), id, RecoveryResult(t, deadline)))
  {
    WaitShifts(s.db.progress, t);
    ShiftAndRelease(s, id, t, WaitWork(s.db.progress, t), RecoveryResult(t, deadline), KRecovery, KWaiting);
  }

  lemma RecoveryAndSchedule(s: Sys, id: CellId, t: Token, deadline: Time, fanout: CellId)
    requires Inv(s) && Held(s, id) && RoleOf(s.cells[id]) == SendRole(t) && SoleSender(s.cells, s.phases, id, t)
    requires PhaseFits(s.db.requests, s.db.progress, s.cells, s.now, s.log, RecoveryStep(t), RecoveryRead(deadline))
    requires fanout !in s.cells
    ensures
      var s1 := Finished(s.(db := s.db.(progress := WaitWork(s.db.progress, t))), id, RecoveryResult(t, deadline));
      Inv(s1.(cells := s1.cells[fanout := FanoutCell(fanout, t, deadline)]))
  {
    var settled := Settle(s.cells, s.cells[id], RecoveryResult(t, deadline), s.now);
    WaitingKeepsInv(s, id, t, deadline);
    SettleReleases(s.cells, id, RecoveryResult(t, deadline), s.now);
    RoundFacts(s.db.requests, s.db.progress, s.cells, s.phases, s.now, s.log, id, t, deadline, settled);
    SchedulingKeepsInv(Finished(s.(db := s.db.(progress := WaitWork(s.db.progress, t))), id, RecoveryResult(t, deadline)),
                       fanout, t, deadline);
  }

  lemma InsertOne(cells: CellMap<Payload>, added: seq<Request<Payload>>)
    requires |added| == 1
    ensures Cells.Insert(cells, added) == cells[added[0].id := NewCell(added[0])]
  {
    assert added[1..] == [];
  }

  /** Applying Recovery's result: the rows wait, the cell is released, one fanout cell is added. */
  lemma RecoveryAppliedIs(s: Sys, id: CellId, t: Token, deadline: Time, allocator: Allocator)
    requires id in s.cells && s.cells[id].id == id && SendersMatch(s.cells, s.senders)
    requires CanApply(s, id, RecoveryResult(t, deadline), allocator)
    ensures var result := RecoveryResult(t, deadline);
      && Additions(s.cells.Keys, result.newCells, allocator).Ok?
      && var added := Additions(s.cells.Keys, result.newCells, allocator).value;
         && |added| == 1 && added[0].id !in s.cells
         && var s1 := Finished(s.(phases := s.phases - {id}, db := s.db.(progress := WaitWork(s.db.progress, t))), id, result);
            Applied(s, id, result, allocator) == s1.(cells := s1.cells[added[0].id := FanoutCell(added[0].id, t, deadline)])
  {
    var result := RecoveryResult(t, deadline);
    SingleWork(s.db, Wait(t));
    AppliedWithCellsIs(s, id, result, allocator);
    AdditionsFacts(s.cells.Keys, result.newCells, allocator);
    InsertOne(Settle(s.cells, s.cells[id], result, s.now), Additions(s.cells.Keys, result.newCells, allocator).value);
  }

  lemma RecoveryKeepsInv(s: Sys, id: CellId, result: EmailResult, allocator: Allocator)
    requires Inv(s) && Applying(s, id, result, allocator) && s.phases[id].RecoveryRead?
    ensures Inv(Applied(s, id, result, allocator))
  {
    var t, deadline := CurrentPayload(s.cells[id]).token, s.phases[id].deadline;
    HeldWhenLetGo(s, id);
    PayloadRole(s.cells, id);
    SenderIsSole(s.cells, s.phases - {id}, id, t);
    RecoveryAppliedIs(s, id, t, deadline, allocator);
    RecoveryAndSchedule(s.(phases := s.phases - {id}), id, t, deadline,
                        Additions(s.cells.Keys, result.newCells, allocator).value[0].id);
  }

  // ----- Fanout -----

  /** A request for the verify cell of a recipient whose verification is due. */
  ghost predicate VerifyRequest(rows: Rows, now: Time, t: Token, request: Request<Payload>) {
    && |request.steps| == 1 && request.steps[0].payload.VerifyStep? && request.notBefore == None
    && request.steps[0].payload.key.0 == t && request.steps[0].payload.key in rows
    && DueBy(rows[request.steps[0].payload.key], now)
  }

  function VerifyKey(request: Request<Payload>): Role
    requires |request.steps| == 1 && request.steps[0].payload.VerifyStep?
  {
    VerifyRole(request.steps[0].payload.key)
  }

  /** The requests name distinct new cells for distinct unserved recipients. */
  ghost predicate VerifyRequests(rows: Rows, now: Time, cells: CellMap<Payload>, t: Token, added: seq<Request<Payload>>) {
    && (forall i :: 0 <= i < |added| ==> VerifyRequest(rows, now, t, added[i]) && added[i].id !in cells)
    && (forall i :: 0 <= i < |added| ==> NoneLive(cells, VerifyKey(added[i])))
    && (forall i, j :: 0 <= i < j < |added| ==>
          added[i].id != added[j].id && VerifyKey(added[i]) != VerifyKey(added[j]))
  }

  lemma VerifyRequestsTail(rows: Rows, now: Time, cells: CellMap<Payload>, t: Token, added: seq<Request<Payload>>)
    requires VerifyRequests(rows, now, cells, t, added) && added != []
    ensures VerifyRequests(rows, now, cells[added[0].id := NewCell(added[0])], t, added[1..])
  {
    var more := cells[added[0].id := NewCell(added[0])];
    assert RoleOf(NewCell(added[0])) == VerifyKey(added[0]);
    forall i | 0 <= i < |added[1..]| ensures NoneLive(more, VerifyKey(added[1..][i])) {
      assert added[1..][i] == added[i + 1] && VerifyKey(added[0]) != VerifyKey(added[i + 1]);
    }
  }

  /** Nobody is expanding the token's fanout any more. */
  ghost predicate FanoutOver(cells: CellMap<Payload>, phases: map<CellId, Phase>, t: Token) {
    && NoneLive(cells, FanoutRole(t))
    && forall o :: o in phases && o in cells && 0 <= cells[o].currentStep < |cells[o].steps| ==>
         CurrentPayload(cells[o]) != FanoutStep(t)
  }

  lemma AddingVerifyKeepsInv(s: Sys, t: Token, request: Request<Payload>)
    requires Inv(s) && VerifyRequest(s.db.progress, s.now, t, request) && request.id !in s.cells
    requires NoneLive(s.cells, VerifyKey(request)) && FanoutOver(s.cells, s.phases, t)
    ensures Inv(s.(cells := s.cells[request.id := NewCell(request)]))
  {
    var cell := NewCell(request);
    assert RoleOf(cell) == VerifyKey(request);
    forall o | o in s.cells
      ensures Apart(s.db.progress, RoleOf(cell), RoleOf(s.cells[o])) && Apart(s.db.progress, RoleOf(s.cells[o]), RoleOf(cell))
    {
      assert RoleOf(s.cells[o]) != FanoutRole(t);
    }
    AddingKeepsInv(s, s.cells[request.id := cell], cell);
  }

  lemma FanoutStaysOver(cells: CellMap<Payload>, phases: map<CellId, Phase>, t: Token, request: Request<Payload>)
    requires FanoutOver(cells, phases, t) && |request.steps| == 1 && request.steps[0].payload.VerifyStep?
    ensures FanoutOver(cells[request.id := NewCell(request)], phases, t)
  {
  }

  lemma {:induction false} AddingVerifiesKeepsInv(s: Sys, t: Token, added: seq<Request<Payload>>)
    requires Inv(s) && VerifyRequests(s.db.progress, s.now, s.cells, t, added) && FanoutOver(s.cells, s.phases, t)
    ensures Inv(s.(cells := Cells.Insert(s.cells, added)))
    decreases |added|
  {
    if added != [] {
      var more := s.cells[added[0].id := NewCell(added[0])];
      AddingVerifyKeepsInv(s, t, added[0]);
      VerifyRequestsTail(s.db.progress, s.now, s.cells, t, added);
      FanoutStaysOver(s.cells, s.phases, t, added[0]);
      AddingVerifiesKeepsInv(s.(cells := more), t, added[1..]);
    }
  }

  lemma FanoutGone(
    rows: Rows, before: CellMap<Payload>, phases: map<CellId, Phase>, id: CellId, t: Token)
    requires CellsSane(before) && id in before && RoleOf(before[id]) == FanoutRole(t) && id !in phases
    ensures FanoutOver(before - {id}, phases, t)
  {
    forall o | o in before - {id} ensures RoleOf((before - {id})[o]) != FanoutRole(t) {
      assert RoleOf(before[o]) != RoleOf(before[id]);
    }
    forall o | o in phases && o in before && o != id ensures CurrentPayload(before[o]) != FanoutStep(t) {
      PayloadRole(before, o);
      assert RoleOf(before[o]) != RoleOf(before[id]);
    }
  }

  lemma ExpansionRequests(
    requests: Requests, rows: Rows, now: Time, cells: CellMap<Payload>, log: seq<Trace>, id: CellId, t: Token,
    waiting: seq<Recipient>, ids: seq<CellId>, added: seq<Request<Payload>>)
    requires CellsFit(requests, rows, now, cells) && id in cells && RoleOf(cells[id]) == FanoutRole(t) && cells[id].state == Claimed
    requires |ids| == |waiting| && |added| == |waiting|
    requires PhaseFits(requests, rows, cells, now, log, FanoutStep(t), FanoutRead(waiting, ids))
    requires forall i :: 0 <= i < |added| ==>
      added[i].steps == [StepOf(VerifyStep((t, waiting[i])))] && added[i].notBefore == None && added[i].id !in cells
    requires forall i, j :: 0 <= i < j < |added| ==> added[i].id != added[j].id
    ensures VerifyRequests(rows, now, cells - {id}, t, added)
  {
    assert CellFits(requests, rows, now, cells[id]);
    forall i | 0 <= i < |added|
      ensures VerifyRequest(rows, now, t, added[i]) && NoneLive(cells - {id}, VerifyKey(added[i]))
    {
      assert waiting[i] in waiting;
    }
  }

  lemma FanoutAdds(
    taken: set<CellId>, t: Token, waiting: seq<Recipient>, ids: seq<CellId>, allocator: Allocator)
    requires |ids| == |waiting| && Additions(taken, FanoutResult(t, waiting, ids).newCells, allocator).Ok?
    ensures var added := Additions(taken, FanoutResult(t, waiting, ids).newCells, allocator).value;
      && |added| == |waiting|
      && (forall i :: 0 <= i < |added| ==>
            added[i].steps == [StepOf(VerifyStep((t, waiting[i])))] && added[i].notBefore == None && added[i].id !in taken)
      && (forall i, j :: 0 <= i < j < |added| ==> added[i].id != added[j].id)
  {
    AdditionsFacts(taken, FanoutResult(t, waiting, ids).newCells, allocator);
  }

  lemma ReleaseAndExpand(s: Sys, id: CellId, t: Token, result: EmailResult, added: seq<Request<Payload>>)
    requires Inv(s) && Held(s, id) && RoleOf(s.cells[id]) == FanoutRole(t) && |s.cells[id].steps| == 1 && result.Complete?
    requires VerifyRequests(s.db.progress, s.now, s.cells - {id}, t, added)
    ensures var s1 := Finished(s, id, result);
      Inv(s1.(cells := Cells.Insert(s1.cells, added)))
  {
    ReleaseKeepsInv(s, id, result);
    FanoutGone(s.db.progress, s.cells, s.phases, id, t);
    AddingVerifiesKeepsInv(Finished(s, id, result), t, added);
  }

  lemma FanoutKeepsInv(s: Sys, id: CellId, result: EmailResult, allocator: Allocator)
    requires Inv(s) && Applying(s, id, result, allocator) && s.phases[id].FanoutRead?
    ensures Inv(Applied(s, id, result, allocator))
  {
    var t, waiting, ids := CurrentPayload(s.cells[id]).token, s.phases[id].waiting, s.phases[id].ids;
    HeldWhenLetGo(s, id);
    PayloadRole(s.cells, id);
    AppliedWithCellsIs(s, id, result, allocator);
    FanoutAdds(s.cells.Keys, t, waiting, ids, allocator);
    var added := Additions(s.cells.Keys, result.newCells, allocator).value;
    ExpansionRequests(s.db.requests, s.db.progress, s.now, s.cells, s.log, id, t, waiting, ids, added);
    ReleaseAndExpand(s.(phases := s.phases - {id}), id, t, result, added);
  }

  // ----- Any result -----

  lemma ResultKeepsInv(s: Sys, id: CellId, result: EmailResult, allocator: Allocator)
    requires Inv(s) && Applying(s, id, result, allocator)
    ensures Inv(Applied(s, id, result, allocator))
  {
    match s.phases[id]
    case SetupReady(_) => SetupKeepsInv(s, id, result, allocator);
    case RecoveryRead(_) => RecoveryKeepsInv(s, id, result, allocator);
    case PostAnswered(_, _) => PostKeepsInv(s, id, result, allocator);
    case FanoutRead(_, _) => FanoutKeepsInv(s, id, result, allocator);
    case VerifyAnswered(_) => VerifyKeepsInv(s, id, result, allocator);
    case Plain(_) => PlainKeepsInv(s, id, result, allocator);
  }

  lemma ApplyKeepsInv(s: Sys, id: CellId, allocator: Allocator)
    requires Inv(s) && Enabled(s, Apply(id, allocator))
    ensures Inv(Perform(s, Apply(id, allocator)))
  {
    ResultKeepsInv(s, id, PendingResult(CurrentPayload(s.cells[id]), s.phases[id]).value, allocator);
  }

  lemma CrashKeepsInv(s: Sys)
    requires Inv(s)
    ensures Inv(s.(mode := Down, phases := map[]))
  {
  }

  lemma SubmitActionKeepsInv(s: Sys, a: Action)
    requires Inv(s) && Enabled(s, a) && a.Submit?
    ensures Inv(Perform(s, a))
  {
    SubmitKeepsInv(s, a.id, a.request);
  }

  lemma ElapseActionKeepsInv(s: Sys, a: Action)
    requires Inv(s) && Enabled(s, a) && a.Elapse?
    ensures Inv(Perform(s, a))
  {
    var later := Perform(s, a).now;
    assert Perform(s, a) == s.(now := later);
    ElapseKeepsInv(s, later);
  }

  lemma WebhookActionKeepsInv(s: Sys, a: Action)
    requires Inv(s) && Enabled(s, a) && a.Webhook?
    ensures Inv(Perform(s, a))
  {
    WebhookKeepsInv(s, a.key, a.event);
  }

  lemma SendActionKeepsInv(s: Sys, a: Action)
    requires Inv(s) && Enabled(s, a) && (a.Mark? || a.SendMail?)
    ensures Inv(Perform(s, a))
  {
    match a
    case Mark(id) => MarkKeepsInv(s, id);
    case SendMail(id, sendAnswer) => SendKeepsInv(s, id, sendAnswer);
  }

  lemma RestartKeepsInv(s: Sys, a: Action)
    requires Inv(s) && Enabled(s, a) && (a.Crash? || a.RecoverAll? || a.Start?)
    ensures Inv(Perform(s, a))
  {
    match a
    case Crash => CrashKeepsInv(s);
    case RecoverAll => RecoverAllKeepsInv(s);
    case Start => StartKeepsInv(s);
  }

  lemma WorkerKeepsInv(s: Sys, a: Action)
    requires Inv(s) && Enabled(s, a) && (a.ClaimCell? || a.Fail? || a.Step?)
    ensures Inv(Perform(s, a))
  {
    match a
    case ClaimCell(id) => ClaimKeepsInv(s, id);
    case Fail(id) => DroppingKeepsInv(s, id);
    case Step(id, move) => StepKeepsInv(s, id, move);
  }

  lemma ProviderKeepsInv(s: Sys, a: Action)
    requires Inv(s) && Enabled(s, a) && (a.AcceptNow? || a.SendBestEffort? || a.Ask?)
    ensures Inv(Perform(s, a))
  {
    match a
    case AcceptNow(id) => AcceptNowKeepsInv(s, id);
    case SendBestEffort(id) => SendBestEffortKeepsInv(s, id);
    case Ask(id, answer) => AskKeepsInv(s, id, answer);
  }

  /** Every action, at any moment, keeps the invariant. */
  lemma ActionKeepsInv(s: Sys, a: Action)
    requires Inv(s) && Enabled(s, a)
    ensures Inv(Perform(s, a))
  {
    if a.Submit? {
      SubmitActionKeepsInv(s, a);
    } else if a.Elapse? {
      ElapseActionKeepsInv(s, a);
    } else if a.Webhook? {
      WebhookActionKeepsInv(s, a);
    } else if a.Crash? || a.RecoverAll? || a.Start? {
      RestartKeepsInv(s, a);
    } else if a.ClaimCell? || a.Fail? || a.Step? {
      WorkerKeepsInv(s, a);
    } else if a.Apply? {
      ApplyKeepsInv(s, a.id, a.allocator);
    } else if a.Mark? || a.SendMail? {
      SendActionKeepsInv(s, a);
    } else {
      ProviderKeepsInv(s, a);
    }
  }

  lemma InitialInv(now: Time)
    ensures Inv(Initial(now))
  {
  }

  lemma {:induction false} RunKeepsInv(s: Sys, actions: seq<Action>)
    requires Inv(s) && IsRun(s, actions)
    ensures Inv(After(s, actions))
    decreases |actions|
  {
    if actions != [] {
      ActionKeepsInv(s, actions[0]);
      RunKeepsInv(Perform(s, actions[0]), actions[1..]);
    }
  }
}

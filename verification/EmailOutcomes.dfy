/** What the applied answers do to the stored rows, field by field, and how a row's
    state follows from the events recorded for it. */
module EmailOutcomes {
  import opened Basics
  import opened Cells
  import opened EmailEvents
  import opened EmailStore
  import opened EmailHandlers
  import opened EmailProtocol
  import opened EmailInvariant
  import opened EmailSteps
  import opened EmailApplying
  import opened EmailHistory

  /** Requests, owners and recorded events stay, and no row is added or lost. */
  ghost predicate OnlyRowsChange(db: Database, after: Database) {
    && after.requests == db.requests && after.owners == db.owners && after.events == db.events
    && after.progress.Keys == db.progress.Keys
  }

  /** Accepted, or reported on by the provider. */
  predicate Reported(state: RowState) {
    state in {Accepted, Sent, Delivered, Opened, Clicked, SpamComplaint, HardBounced}
  }

  /** States in which a provider answer to Send is not recorded. */
  predicate Untouchable(state: RowState) { state in {Recovery, RecoveryWaiting, Refused} }

  // ----- Post -----

  lemma {:induction false} AcceptedRowsAt(rows: Rows, t: Token, pending: seq<Recipient>, ids: seq<Pmuid>, k: Key)
    requires |ids| == |pending| && NoDuplicates(pending) && k in rows
    ensures var after := AcceptedRows(rows, t, pending, ids);
      && after.Keys == rows.Keys
      && (forall i :: 0 <= i < |pending| && k == (t, pending[i]) ==> after[k] == AcceptRow(rows[k], Pending, ids[i]))
      && (k.0 != t || k.1 !in pending ==> after[k] == rows[k])
    decreases |pending|
  {
    if pending != [] {
      var next := AcceptWork(rows, (t, pending[0]), ids[0]);
      AcceptedRowsAt(next, t, pending[1..], ids[1..], k);
      forall i | 0 < i < |pending| && k == (t, pending[i])
        ensures AcceptedRows(rows, t, pending, ids)[k] == AcceptRow(rows[k], Pending, ids[i])
      {
        assert pending[1..][i - 1] == pending[i] && ids[1..][i - 1] == ids[i];
      }
      if k == (t, pending[0]) { assert k.1 !in pending[1..]; }
    }
  }

  /** The worker on `id` runs Post for the token and the provider has answered. */
  ghost predicate PostHasAnswer(
    s: Sys, id: CellId, allocator: Allocator, token: Token, pending: seq<Recipient>, answer: SendAnswer)
  {
    && Enabled(s, Apply(id, allocator)) && CurrentPayload(s.cells[id]) == PostStep(token)
    && s.phases[id] == PostAnswered(pending, answer)
  }

  /** The tables after applying an answered Post. */
  lemma PostApplied(
    s: Sys, id: CellId, allocator: Allocator, token: Token, pending: seq<Recipient>, answer: SendAnswer)
    requires PostHasAnswer(s, id, allocator, token, pending, answer)
    ensures Perform(s, Apply(id, allocator)).db == s.db.(progress := PostRows(s.db.progress, token, pending, answer))
  {
    PostWork(s.db, token, pending, answer);
  }

  /** The batch an answered Post works on. */
  lemma AnsweredInFlight(s: Sys, id: CellId, token: Token, pending: seq<Recipient>, answer: SendAnswer)
    requires Inv(s) && Working(s, id) && CurrentPayload(s.cells[id]) == PostStep(token)
    requires s.phases[id] == PostAnswered(pending, answer)
    ensures NoDuplicates(pending) && RowsSane(s.db.progress) && OnlyKind(s.db.progress, token, KInFlight)
    ensures forall k :: k in s.db.progress && k.0 == token && s.db.progress[k].state == Pending ==> k.1 in pending
  {
  }

  /** The outcome for the row of recipient pending[i]. */
  predicate AnswerStored(row: Row, after: Row, pmuid: Pmuid) {
    && (row.state == Pending ==> after == row.(state := Accepted, pmuid := Some(pmuid)))
    && (Reported(row.state) ==> after == row.(pmuid := Some(if row.pmuid.Some? then row.pmuid.value else pmuid)))
    && (Untouchable(row.state) ==> after == row)
  }

  /** The outcome of a Send that returned an id for every recipient: each recipient
      still pending is accepted under its own id; one already reported keeps its state,
      and its id if it has one; no other row moves, and no row of the token is pending. */
  ghost predicate Posted(rows: Rows, after: Rows, t: Token, pending: seq<Recipient>, ids: seq<Pmuid>)
    requires |ids| == |pending|
  {
    && after.Keys == rows.Keys
    && (forall i :: 0 <= i < |pending| && (t, pending[i]) in rows ==>
          AnswerStored(rows[(t, pending[i])], after[(t, pending[i])], ids[i]))
    && (forall k :: k in rows && (k.0 != t || k.1 !in pending) ==> after[k] == rows[k])
    && (forall k :: k in rows && k.0 == t ==> after[k].state != Pending)
  }

  lemma BatchAccepted(rows: Rows, t: Token, pending: seq<Recipient>, ids: seq<Pmuid>)
    requires |ids| == |pending| && NoDuplicates(pending) && RowsSane(rows)
    requires forall k :: k in rows && k.0 == t && rows[k].state == Pending ==> k.1 in pending
    ensures Posted(rows, AcceptedRows(rows, t, pending, ids), t, pending, ids)
  {
    var after := AcceptedRows(rows, t, pending, ids);
    AcceptsSettle(rows, t, pending, ids);
    forall i | 0 <= i < |pending| && (t, pending[i]) in rows
      ensures AnswerStored(rows[(t, pending[i])], after[(t, pending[i])], ids[i])
    {
      AcceptedRowsAt(rows, t, pending, ids, (t, pending[i]));
      assert RowSane(rows[(t, pending[i])]);
    }
    forall k | k in rows && (k.0 != t || k.1 !in pending) ensures after[k] == rows[k] {
      AcceptedRowsAt(rows, t, pending, ids, k);
    }
    forall k | k in rows && k.0 == t ensures after[k].state != Pending {
      if k.1 in pending { assert k == (t, k.1); }
    }
  }

  /** Applying the answer of such a Send has that outcome. */
  lemma SendAnswerStored(
    s: Sys, id: CellId, allocator: Allocator, token: Token, pending: seq<Recipient>, ids: seq<Pmuid>)
    requires Inv(s) && PostHasAnswer(s, id, allocator, token, pending, SendReturned(ids))
    requires |ids| == |pending| && forall i :: 0 <= i < |ids| ==> ids[i] != ""
    ensures var after := Perform(s, Apply(id, allocator)).db;
      OnlyRowsChange(s.db, after) && Posted(s.db.progress, after.progress, token, pending, ids)
  {
    PostApplied(s, id, allocator, token, pending, SendReturned(ids));
    AnsweredInFlight(s, id, token, pending, SendReturned(ids));
    BatchAccepted(s.db.progress, token, pending, ids);
  }

  /** The outcome of any other answer: every stamped pending row of the token awaits
      recovery with its submission time, and no other row moves. */
  ghost predicate Lost(rows: Rows, after: Rows, t: Token) {
    && after.Keys == rows.Keys
    && forall k :: k in rows ==>
         after[k] == if k.0 == t && rows[k].state == Pending && rows[k].submittedAt.Some?
                     then rows[k].(state := Recovery) else rows[k]
  }

  lemma SendAnswerRows(
    s: Sys, id: CellId, allocator: Allocator, token: Token, pending: seq<Recipient>, answer: SendAnswer)
    requires PostHasAnswer(s, id, allocator, token, pending, answer) && !Usable(answer, pending)
    ensures var after := Perform(s, Apply(id, allocator)).db;
      OnlyRowsChange(s.db, after) && Lost(s.db.progress, after.progress, token)
  {
    PostApplied(s, id, allocator, token, pending, answer);
  }

  /** Then the sequence also starts again, at once. */
  lemma SendAnswerLost(
    s: Sys, id: CellId, allocator: Allocator, token: Token, pending: seq<Recipient>, answer: SendAnswer)
    requires Inv(s) && PostHasAnswer(s, id, allocator, token, pending, answer)
    requires answer.SendFailed? || |answer.ids| != |pending| || exists i :: 0 <= i < |answer.ids| && answer.ids[i] == ""
    ensures var next := Perform(s, Apply(id, allocator));
      && OnlyRowsChange(s.db, next.db) && Lost(s.db.progress, next.db.progress, token)
      && id in s.cells
      && next.cells == s.cells[id := s.cells[id].(currentStep := 0, state := Ready, notBefore := Some(s.now))]
  {
    SendAnswerRows(s, id, allocator, token, pending, answer);
    CellAtHome(s, id);
    SequenceRestarts(s, id, allocator, token, pending, answer);
  }

  lemma SequenceRestarts(
    s: Sys, id: CellId, allocator: Allocator, token: Token, pending: seq<Recipient>, answer: SendAnswer)
    requires PostHasAnswer(s, id, allocator, token, pending, answer) && !Usable(answer, pending) && s.cells[id].id == id
    ensures id in s.cells && Perform(s, Apply(id, allocator)).cells
      == s.cells[id := s.cells[id].(currentStep := 0, state := Ready, notBefore := Some(s.now))]
  {
    CellSettles(s, id, allocator, PostResult(token, pending, answer));
  }

  /** Without new cells a result only moves its own cell. */
  lemma CellSettles(s: Sys, id: CellId, allocator: Allocator, result: EmailResult)
    requires Enabled(s, Apply(id, allocator)) && s.cells[id].id == id
    requires PendingResult(CurrentPayload(s.cells[id]), s.phases[id]) == Some(result) && result.newCells == []
    ensures Perform(s, Apply(id, allocator)).cells == Settle(s.cells, s.cells[id], result, s.now)
  {
  }

  lemma CellAtHome(s: Sys, id: CellId)
    requires Inv(s) && Working(s, id)
    ensures s.cells[id].id == id && WellFormed(s.cells)
    ensures CurrentPayload(s.cells[id]).VerifyStep? || CurrentPayload(s.cells[id]).FanoutStep? ==>
      |s.cells[id].steps| == 1 && s.cells[id].currentStep == 0
  {
    PayloadRole(s.cells, id);
  }

  // ----- Verify -----

  /** The outcome of a verification: the waiting row becomes pending and unsubmitted,
      or accepted under the identifier found; a row reported on meanwhile keeps its
      state, and its id if it has one; no other row moves. */
  ghost predicate Judged(rows: Rows, after: Rows, key: Key, answer: Answer) {
    && after.Keys == rows.Keys
    && (forall k :: k in rows && (k != key || rows[k].state in {Pending, Recovery, Refused}) ==> after[k] == rows[k])
    && (key in rows && rows[key].state == RecoveryWaiting ==>
          match answer
          case NotFound => after[key] == rows[key].(state := Pending, submittedAt := None)
          case Found(pmuid) => after[key] == rows[key].(state := Accepted, pmuid := Some(pmuid))
          case Failed => false)
    && (key in rows && Reported(rows[key].state) ==>
          if answer.Found? && rows[key].pmuid.None? then after[key] == rows[key].(pmuid := Some(answer.pmuid))
          else after[key] == rows[key])
  }

  lemma VerdictAt(rows: Rows, key: Key, answer: Answer)
    requires RowsSane(rows) && VerifyResult(key, answer).Some?
    ensures var after := if answer == NotFound then AbsentWork(rows, key) else AcceptRecoveredWork(rows, key, answer.pmuid);
      Judged(rows, after, key, answer)
  {
    if key in rows { assert RowSane(rows[key]); }
  }

  /** The worker on `id` verifies the recipient and the provider has answered. */
  ghost predicate VerifyHasAnswer(s: Sys, id: CellId, allocator: Allocator, key: Key, answer: Answer) {
    && Enabled(s, Apply(id, allocator)) && CurrentPayload(s.cells[id]) == VerifyStep(key)
    && s.phases[id] == VerifyAnswered(answer)
  }

  lemma VerdictApplied(s: Sys, id: CellId, allocator: Allocator, key: Key, answer: Answer)
    requires VerifyHasAnswer(s, id, allocator, key, answer)
    ensures VerifyResult(key, answer).Some?
    ensures Perform(s, Apply(id, allocator)).db
      == s.db.(progress := if answer == NotFound then AbsentWork(s.db.progress, key)
                           else AcceptRecoveredWork(s.db.progress, key, answer.pmuid))
  {
    VerdictWork(s.db, key, answer);
  }

  lemma VerdictEnds(s: Sys, id: CellId, allocator: Allocator, key: Key, answer: Answer)
    requires VerifyHasAnswer(s, id, allocator, key, answer) && s.cells[id].id == id
    requires |s.cells[id].steps| == 1 && s.cells[id].currentStep == 0
    ensures Perform(s, Apply(id, allocator)).cells == s.cells - {id}
  {
    CellSettles(s, id, allocator, VerifyResult(key, answer).value);
  }

  /** A verification is applied only when it found nothing or an identifier; it has
      that outcome, and its cell is gone. */
  lemma VerdictStored(s: Sys, id: CellId, allocator: Allocator, key: Key, answer: Answer)
    requires Inv(s) && VerifyHasAnswer(s, id, allocator, key, answer)
    ensures answer == NotFound || (answer.Found? && answer.pmuid != "")
    ensures var next := Perform(s, Apply(id, allocator));
      && OnlyRowsChange(s.db, next.db) && Judged(s.db.progress, next.db.progress, key, answer)
      && next.cells == s.cells - {id}
  {
    VerdictApplied(s, id, allocator, key, answer);
    CellAtHome(s, id);
    VerdictEnds(s, id, allocator, key, answer);
    VerdictAt(s.db.progress, key, answer);
  }

  // ----- Setup, and the statements before a Send -----

  /** Applying Setup leaves a stored request alone or stores the new one. */
  lemma SetupApplied(s: Sys, id: CellId, allocator: Allocator, q: SendRequest, messageId: MessageId)
    requires Enabled(s, Apply(id, allocator)) && CurrentPayload(s.cells[id]) == SetupStep(q) && DistinctRecipients(q)
    requires s.phases[id] == SetupReady(messageId)
    ensures var after := Perform(s, Apply(id, allocator)).db;
      if q.token in s.db.requests then Stored(s.db, q) && after == s.db else SetUp(s.db, after, q, messageId)
  {
    ResultApplied(s, id, allocator, Complete([], [Insert(q, messageId)]));
    SetupWork(s.db, q, messageId);
    SetupOutcome(s.db, q, messageId);
  }

  /** Every pending row of the token, and no other, is stamped with the time. */
  ghost predicate StampedAt(rows: Rows, after: Rows, t: Token, at: Time) {
    && after.Keys == rows.Keys
    && forall k :: k in rows ==>
         after[k] == if k.0 == t && rows[k].state == Pending then rows[k].(submittedAt := Some(at)) else rows[k]
  }

  /** Before the provider is called, the batch is stamped with the time of the call. */
  lemma MarkStamps(s: Sys, id: CellId)
    requires CanMark(s, id)
    ensures var next := Perform(s, Mark(id));
      OnlyRowsChange(s.db, next.db)
      && StampedAt(s.db.progress, next.db.progress, CurrentPayload(s.cells[id]).token, s.now)
  {
  }

  /** A best-effort acceptance: every recipient of the batch, and no other, is accepted
      under its own synthetic identifier. */
  ghost predicate HandledAs(rows: Rows, after: Rows, t: Token, messageId: MessageId, batch: seq<Recipient>) {
    && after.Keys == rows.Keys
    && (forall k :: k in rows && (k.0 != t || k.1 !in batch) ==> after[k] == rows[k])
    && forall i :: 0 <= i < |batch| ==>
         var k := (t, batch[i]);
         && k in rows && rows[k].state == Pending && rows[k].submittedAt.None?
         && after[k] == Row(rows[k].name, rows[k].variables, Accepted, None, Some(SuppressedId(messageId, i)))
  }

  lemma AcceptNowHandles(s: Sys, id: CellId)
    requires Enabled(s, AcceptNow(id))
    ensures var next, phase := Perform(s, AcceptNow(id)), s.phases[id];
      OnlyRowsChange(s.db, next.db)
      && HandledAs(s.db.progress, next.db.progress, CurrentPayload(s.cells[id]).token, phase.messageId, phase.pending)
  {
    var token, phase := CurrentPayload(s.cells[id]).token, s.phases[id];
    AcceptBestEffortContents(s.db.progress, token, phase.messageId, phase.pending, 0);
  }

  /** Some recipient of the token is in one of the states. */
  ghost predicate SomeIn(rows: Rows, t: Token, states: set<RowState>) {
    exists k :: k in rows && k.0 == t && rows[k].state in states
  }

  /** While a recipient waits for its verification, Recovery asks to run again a second
      later and otherwise completes; a Post that meets an unknown outcome restarts the
      sequence, one with nothing pending completes, and a deferred one asks to run again
      after its delay. */
  lemma ComesBack(s: Sys, id: CellId, move: Move)
    requires Working(s, id) && MoveEnabled(s, id, move)
    ensures move.ReadWaiting? ==>
      var waits := SomeIn(s.db.progress, CurrentPayload(s.cells[id]).token, {RecoveryWaiting});
      NextPhase(s, id, move) == Plain(if waits then Retry(Some(s.now + 1_000_000_000), [], []) else Complete([], []))
    ensures move.ReadPending? ==>
      (NextPhase(s, id, move) == Plain(Complete([], []))
       <==> !SomeIn(s.db.progress, CurrentPayload(s.cells[id]).token, {Pending}))
    ensures move.Defer? ==> NextPhase(s, id, move) == Plain(Retry(Some(s.now + move.delay), [], []))
    ensures move.CheckUnresolved? ==>
      var unknown := SomeIn(s.db.progress, CurrentPayload(s.cells[id]).token, {Recovery, RecoveryWaiting});
      NextPhase(s, id, move) == if unknown then Plain(RetrySequence(0, [], [])) else PostClear
  {
    if move.ReadWaiting? { ListedIn(s.db.progress, CurrentPayload(s.cells[id]).token, RecoveryWaiting); }
    if move.ReadPending? {
      ListedIn(s.db.progress, CurrentPayload(s.cells[id]).token, Pending);
      EmptyList(move.pending, InState(s.db.progress, CurrentPayload(s.cells[id]).token, Pending));
    }
  }

  lemma EmptyList(list: seq<Recipient>, names: set<Recipient>)
    requires Lists(list, names)
    ensures list == [] <==> names == {}
  {
    if names != {} {
      var n :| n in names;
      assert n in list;
    }
    if list != [] { assert list[0] in list; }
  }

  lemma ListedIn(rows: Rows, t: Token, state: RowState)
    ensures InState(rows, t, state) != {} <==> SomeIn(rows, t, {state})
  {
    if k :| k in rows && k.0 == t && rows[k].state == state { assert k.1 in InState(rows, t, state); }
    if r :| r in InState(rows, t, state) {
    }
  }

  // ----- Recovery and its fanout -----

  lemma ResultApplied(s: Sys, id: CellId, allocator: Allocator, result: EmailResult)
    requires Enabled(s, Apply(id, allocator)) && PendingResult(CurrentPayload(s.cells[id]), s.phases[id]) == Some(result)
    ensures RunWorks(s.db, result.works).Ok? && Perform(s, Apply(id, allocator)).db == RunWorks(s.db, result.works).value
    ensures ApplyResult(s.cells, s.cells[id], result, true, allocator, s.now).Ok?
    ensures Perform(s, Apply(id, allocator)).cells == ApplyResult(s.cells, s.cells[id], result, true, allocator, s.now).value
  {
  }

  /** The recovery candidates of the token wait for verification, and nothing else moved. */
  ghost predicate NowWaiting(rows: Rows, after: Rows, t: Token) {
    && after.Keys == rows.Keys
    && forall k :: k in rows ==>
         after[k] == if k.0 == t && rows[k].state == Recovery then rows[k].(state := RecoveryWaiting) else rows[k]
  }

  /** One new fanout cell and the sequence may run from the deadline. */
  ghost predicate Scheduled(
    before: CellMap<Payload>, after: CellMap<Payload>, id: CellId, t: Token, deadline: Time, fanout: CellId)
  {
    && id in before && fanout !in before
    && after == before[id := before[id].(state := Ready, notBefore := Some(deadline))]
         [fanout := Cell(fanout, [StepOf(FanoutStep(t))], 0, Ready, Some(deadline))]
  }

  lemma FanoutScheduled(cells: CellMap<Payload>, id: CellId, t: Token, deadline: Time, allocator: Allocator, now: Time)
    returns (fanout: CellId)
    requires id in cells && cells[id].id == id
    requires ApplyResult(cells, cells[id], RecoveryResult(t, deadline), true, allocator, now).Ok?
    ensures Scheduled(cells, ApplyResult(cells, cells[id], RecoveryResult(t, deadline), true, allocator, now).value,
                      id, t, deadline, fanout)
  {
    var result := RecoveryResult(t, deadline);
    var added := Additions(cells.Keys, result.newCells, allocator).value;
    AdditionsFacts(cells.Keys, result.newCells, allocator);
    InsertOne(Settle(cells, cells[id], result, now), added);
    fanout := added[0].id;
  }

  lemma RecoveryApplied(s: Sys, id: CellId, allocator: Allocator, token: Token, deadline: Time)
    requires Enabled(s, Apply(id, allocator)) && CurrentPayload(s.cells[id]) == RecoveryStep(token)
    requires s.phases[id] == RecoveryRead(deadline)
    ensures var next, result := Perform(s, Apply(id, allocator)), RecoveryResult(token, deadline);
      && OnlyRowsChange(s.db, next.db) && NowWaiting(s.db.progress, next.db.progress, token)
      && ApplyResult(s.cells, s.cells[id], result, true, allocator, s.now) == Ok(next.cells)
  {
    ResultApplied(s, id, allocator, RecoveryResult(token, deadline));
    SingleWork(s.db, Wait(token));
  }

  /** Applying Recovery's result when it read candidates. */
  lemma RecoveryScheduled(s: Sys, id: CellId, allocator: Allocator, token: Token, deadline: Time) returns (fanout: CellId)
    requires Inv(s) && Enabled(s, Apply(id, allocator)) && CurrentPayload(s.cells[id]) == RecoveryStep(token)
    requires s.phases[id] == RecoveryRead(deadline)
    ensures var next := Perform(s, Apply(id, allocator));
      && OnlyRowsChange(s.db, next.db) && NowWaiting(s.db.progress, next.db.progress, token)
      && Scheduled(s.cells, next.cells, id, token, deadline, fanout)
  {
    CellAtHome(s, id);
    RecoveryApplied(s, id, allocator, token, deadline);
    fanout := FanoutScheduled(s.cells, id, token, deadline, allocator, s.now);
  }

  function VerifyCell(id: CellId, t: Token, r: Recipient): Cell<Payload> {
    Cell(id, [StepOf(VerifyStep((t, r)))], 0, Ready, None)
  }

  /** The fanout cell is replaced by one Verify cell per recipient, ready at once. */
  ghost predicate Expanded(
    before: CellMap<Payload>, after: CellMap<Payload>, id: CellId, t: Token, waiting: seq<Recipient>, ids: seq<CellId>)
    requires |ids| == |waiting|
  {
    && (forall o :: o in after <==> (o in before && o != id) || o in ids)
    && (forall o :: o in before && o != id ==> after[o] == before[o])
    && forall i :: 0 <= i < |ids| ==>
         && ids[i] !in before
         && after[ids[i]] == VerifyCell(ids[i], t, waiting[i])
  }

  /** The requests of the expansion, once identified. */
  ghost predicate Verifies(added: seq<Request<Payload>>, t: Token, waiting: seq<Recipient>, ids: seq<CellId>)
    requires |ids| == |waiting|
  {
    && |added| == |ids| && (forall i, j :: 0 <= i < j < |added| ==> added[i].id != added[j].id)
    && forall i :: 0 <= i < |added| ==>
         added[i] == Request(ids[i], [StepOf(VerifyStep((t, waiting[i])))], None)
  }

  lemma FanoutRequests(
    taken: set<CellId>, t: Token, waiting: seq<Recipient>, ids: seq<CellId>, allocator: Allocator)
    requires |ids| == |waiting| && forall i :: 0 <= i < |ids| ==> ids[i] != ""
    requires Additions(taken, FanoutResult(t, waiting, ids).newCells, allocator).Ok?
    ensures var added := Additions(taken, FanoutResult(t, waiting, ids).newCells, allocator).value;
      Verifies(added, t, waiting, ids) && forall i :: 0 <= i < |added| ==> added[i].id !in taken
  {
    AdditionsFacts(taken, FanoutResult(t, waiting, ids).newCells, allocator);
  }

  lemma FanoutReplaced(
    cells: CellMap<Payload>, id: CellId, t: Token, waiting: seq<Recipient>, ids: seq<CellId>,
    added: seq<Request<Payload>>)
    requires id in cells && |ids| == |waiting| && Verifies(added, t, waiting, ids)
    requires forall i :: 0 <= i < |added| ==> added[i].id !in cells
    ensures Expanded(cells, Cells.Insert(cells - {id}, added), id, t, waiting, ids)
  {
    InsertContents(cells - {id}, added);
    var after := Cells.Insert(cells - {id}, added);
    forall i | 0 <= i < |ids| ensures ids[i] !in cells && after[ids[i]] == VerifyCell(ids[i], t, waiting[i]) {
      assert added[i].id == ids[i];
    }
    FanoutKeys(cells - {id}, after, added, t, waiting, ids);
  }

  lemma FanoutKeys(
    rest: CellMap<Payload>, after: CellMap<Payload>, added: seq<Request<Payload>>, t: Token, waiting: seq<Recipient>,
    ids: seq<CellId>)
    requires |ids| == |waiting| && Verifies(added, t, waiting, ids)
    requires forall o :: o in after <==> o in rest || exists i :: 0 <= i < |added| && added[i].id == o
    ensures forall o :: o in after <==> o in rest || o in ids
  {
    forall o ensures (exists i :: 0 <= i < |added| && added[i].id == o) <==> o in ids {
      if o in ids {
        var i :| 0 <= i < |ids| && ids[i] == o;
        assert added[i].id == o;
      }
    }
  }

  /** The worker on `id` has expanded the fanout into these recipients and ids. */
  ghost predicate FanoutHasRead(
    s: Sys, id: CellId, allocator: Allocator, token: Token, waiting: seq<Recipient>, ids: seq<CellId>)
  {
    && Enabled(s, Apply(id, allocator)) && CurrentPayload(s.cells[id]) == FanoutStep(token)
    && s.phases[id] == FanoutRead(waiting, ids) && |ids| == |waiting|
  }

  lemma FanoutApplied(
    s: Sys, id: CellId, allocator: Allocator, token: Token, waiting: seq<Recipient>, ids: seq<CellId>)
    requires FanoutHasRead(s, id, allocator, token, waiting, ids)
    ensures var next, result := Perform(s, Apply(id, allocator)), FanoutResult(token, waiting, ids);
      next.db == s.db && ApplyResult(s.cells, s.cells[id], result, true, allocator, s.now) == Ok(next.cells)
  {
    ResultApplied(s, id, allocator, FanoutResult(token, waiting, ids));
  }

  lemma FanoutCells(
    cells: CellMap<Payload>, id: CellId, token: Token, waiting: seq<Recipient>, ids: seq<CellId>, allocator: Allocator,
    now: Time, after: CellMap<Payload>)
    requires id in cells && cells[id].id == id && |cells[id].steps| == 1 && cells[id].currentStep == 0
    requires |ids| == |waiting| && forall i :: 0 <= i < |ids| ==> ids[i] != ""
    requires ApplyResult(cells, cells[id], FanoutResult(token, waiting, ids), true, allocator, now) == Ok(after)
    ensures Expanded(cells, after, id, token, waiting, ids)
  {
    FanoutRequests(cells.Keys, token, waiting, ids, allocator);
    FanoutReplaced(cells, id, token, waiting, ids,
                   Additions(cells.Keys, FanoutResult(token, waiting, ids).newCells, allocator).value);
  }

  lemma FanoutOutcome(
    s: Sys, id: CellId, allocator: Allocator, token: Token, waiting: seq<Recipient>, ids: seq<CellId>, next: Sys)
    requires FanoutHasRead(s, id, allocator, token, waiting, ids) && next == Perform(s, Apply(id, allocator))
    requires forall i :: 0 <= i < |ids| ==> ids[i] != ""
    requires s.cells[id].id == id && |s.cells[id].steps| == 1 && s.cells[id].currentStep == 0
    ensures next.db == s.db && Expanded(s.cells, next.cells, id, token, waiting, ids)
  {
    FanoutApplied(s, id, allocator, token, waiting, ids);
    FanoutCells(s.cells, id, token, waiting, ids, allocator, s.now, next.cells);
  }

  /** Applying the fanout's expansion; no table changes. */
  lemma FanoutExpanded(
    s: Sys, id: CellId, allocator: Allocator, token: Token, waiting: seq<Recipient>, ids: seq<CellId>)
    requires Inv(s) && FanoutHasRead(s, id, allocator, token, waiting, ids) && forall i :: 0 <= i < |ids| ==> ids[i] != ""
    ensures var next := Perform(s, Apply(id, allocator));
      next.db == s.db && Expanded(s.cells, next.cells, id, token, waiting, ids)
  {
    CellAtHome(s, id);
    FanoutOutcome(s, id, allocator, token, waiting, ids, Perform(s, Apply(id, allocator)));
  }

  // ----- Webhooks -----

  /** The delivery events recorded for one recipient, oldest first. */
  function EventsFor(events: seq<RecordedEvent>, k: Key): seq<DeliveryEvent> {
    if events == [] then []
    else (if events[0].key == k then [events[0].event] else []) + EventsFor(events[1..], k)
  }

  /** Webhooks apart, no action of the run changes the row's state. */
  ghost predicate OnlyWebhooks(s: Sys, actions: seq<Action>, k: Key)
    requires IsRun(s, actions)
    decreases |actions|
  {
    actions == [] ||
    var next := Perform(s, actions[0]);
    && k in s.db.progress && k in next.db.progress
    && (!actions[0].Webhook? ==> next.db.progress[k].state == s.db.progress[k].state)
    && OnlyWebhooks(next, actions[1..], k)
  }

  /** What one action appends to the event table. */
  ghost function Recorded(s: Sys, a: Action): seq<RecordedEvent> {
    if a.Webhook? then [RecordedEvent(a.key, a.event, s.now)] else []
  }

  lemma {:induction false} WorksKeepEvents(db: Database, works: seq<Work>)
    requires RunWorks(db, works).Ok?
    ensures RunWorks(db, works).value.events == db.events
    decreases |works|
  {
    if works != [] { WorksKeepEvents(RunWork(db, works[0]).value, works[1..]); }
  }

  /** Events are only ever appended, and only by webhooks. */
  lemma ActionRecords(s: Sys, a: Action)
    requires Enabled(s, a)
    ensures Perform(s, a).db.events == s.db.events + Recorded(s, a)
  {
    if a.Apply? { WorksKeepEvents(s.db, PendingResult(CurrentPayload(s.cells[a.id]), s.phases[a.id]).value.works); }
  }

  lemma WebhookAdvances(s: Sys, a: Action, k: Key)
    requires Enabled(s, a) && a.Webhook? && k in s.db.progress
    ensures k in Perform(s, a).db.progress
    ensures Perform(s, a).db.progress[k].state == Fold(s.db.progress[k].state, EventsFor(Recorded(s, a), k))
  {
  }

  /** The events a run appends. */
  ghost function NewEvents(s: Sys, actions: seq<Action>): seq<RecordedEvent>
    requires IsRun(s, actions)
    decreases |actions|
  {
    if actions == [] then [] else Recorded(s, actions[0]) + NewEvents(Perform(s, actions[0]), actions[1..])
  }

  lemma {:induction false} RunRecords(s: Sys, actions: seq<Action>)
    requires IsRun(s, actions)
    ensures After(s, actions).db.events == s.db.events + NewEvents(s, actions)
    decreases |actions|
  {
    if actions != [] {
      ActionRecords(s, actions[0]);
      RunRecords(Perform(s, actions[0]), actions[1..]);
    }
  }

  lemma {:induction false} EventsForSplit(first: seq<RecordedEvent>, second: seq<RecordedEvent>, k: Key)
    ensures EventsFor(first + second, k) == EventsFor(first, k) + EventsFor(second, k)
    decreases |first|
  {
    if first == [] {
      assert first + second == second;
    } else {
      assert (first + second)[1..] == first[1..] + second;
      EventsForSplit(first[1..], second, k);
    }
  }

  lemma {:induction false} FoldSplit(state: RowState, first: seq<DeliveryEvent>, second: seq<DeliveryEvent>)
    ensures Fold(state, first + second) == Fold(Fold(state, first), second)
    decreases |first|
  {
    if first == [] {
      assert first + second == second;
    } else {
      assert (first + second)[1..] == first[1..] + second;
      FoldSplit(EventState(state, first[0]), first[1..], second);
    }
  }

  lemma {:induction false} StateIsFold(s: Sys, actions: seq<Action>, k: Key)
    requires IsRun(s, actions) && OnlyWebhooks(s, actions, k) && k in s.db.progress
    ensures k in After(s, actions).db.progress
    ensures After(s, actions).db.progress[k].state
      == Fold(s.db.progress[k].state, EventsFor(NewEvents(s, actions), k))
    decreases |actions|
  {
    if actions != [] {
      var a, next := actions[0], Perform(s, actions[0]);
      if a.Webhook? { WebhookAdvances(s, a, k); }
      StateIsFold(next, actions[1..], k);
      EventsForSplit(Recorded(s, a), NewEvents(next, actions[1..]), k);
      FoldSplit(s.db.progress[k].state, EventsFor(Recorded(s, a), k), EventsFor(NewEvents(next, actions[1..]), k));
    }
  }

  /** Where only webhooks change a row, its state is its first state advanced by the
      events that the event table has gained for it, in order. */
  lemma StateFollowsEvents(s: Sys, actions: seq<Action>, k: Key)
    requires IsRun(s, actions) && OnlyWebhooks(s, actions, k) && k in s.db.progress
    ensures var after := After(s, actions).db;
      && |s.db.events| <= |after.events| && after.events[..|s.db.events|] == s.db.events
      && k in after.progress
      && after.progress[k].state == Fold(s.db.progress[k].state, EventsFor(after.events[|s.db.events|..], k))
  {
    RunRecords(s, actions);
    StateIsFold(s, actions, k);
    assert After(s, actions).db.events[|s.db.events|..] == NewEvents(s, actions);
  }

  // ----- Settled rows -----

  lemma {:induction false} InsertRowsKeeps(rows: Rows, q: SendRequest, from: nat, k: Key)
    requires from <= |q.recipients| && k in rows && k.0 != q.token
    ensures k in InsertRows(rows, q, from) && InsertRows(rows, q, from)[k] == rows[k]
    decreases |q.recipients| - from
  {
    if from < |q.recipients| {
      InsertRowsKeeps(rows[(q.token, q.recipients[from].email) := NewRow(q.recipients[from])], q, from + 1, k);
    }
  }

  lemma WorkKeepsState(db: Database, work: Work, k: Key)
    requires RunWork(db, work).Ok? && k in db.progress && !Unsettled(db.progress[k])
    ensures var after := RunWork(db, work).value.progress; k in after && after[k].state == db.progress[k].state
  {
    if work.Insert? && work.request.token !in db.requests { InsertRowsKeeps(db.progress, work.request, 0, k); }
  }

  lemma {:induction false} WorksKeepState(db: Database, works: seq<Work>, k: Key)
    requires RunWorks(db, works).Ok? && k in db.progress && !Unsettled(db.progress[k])
    ensures var after := RunWorks(db, works).value.progress; k in after && after[k].state == db.progress[k].state
    decreases |works|
  {
    if works != [] {
      WorkKeepsState(db, works[0], k);
      WorksKeepState(RunWork(db, works[0]).value, works[1..], k);
    }
  }

  lemma AcceptNowKeepsState(s: Sys, a: Action, k: Key)
    requires Enabled(s, a) && a.AcceptNow? && k in s.db.progress && !Unsettled(s.db.progress[k])
    ensures var after := Perform(s, a).db.progress; k in after && after[k].state == s.db.progress[k].state
  {
    var token, phase := CurrentPayload(s.cells[a.id]).token, s.phases[a.id];
    AcceptBestEffortContents(s.db.progress, token, phase.messageId, phase.pending, 0);
  }

  /** Nothing but a webhook changes the state of a settled row. */
  lemma SettledStays(s: Sys, a: Action, k: Key)
    requires Enabled(s, a) && !a.Webhook? && k in s.db.progress && !Unsettled(s.db.progress[k])
    ensures var after := Perform(s, a).db.progress; k in after && after[k].state == s.db.progress[k].state
  {
    if a.Apply? {
      WorksKeepState(s.db, PendingResult(CurrentPayload(s.cells[a.id]), s.phases[a.id]).value.works, k);
    } else if a.AcceptNow? {
      AcceptNowKeepsState(s, a, k);
    }
  }

  lemma SettledAdvances(s: Sys, a: Action, k: Key)
    requires Enabled(s, a) && a.Webhook? && k in s.db.progress && !Unsettled(s.db.progress[k])
    ensures var after := Perform(s, a).db.progress; k in after && !Unsettled(after[k])
  {
  }

  lemma {:induction false} SettledOnlyWebhooks(s: Sys, actions: seq<Action>, k: Key)
    requires IsRun(s, actions) && k in s.db.progress && !Unsettled(s.db.progress[k])
    ensures OnlyWebhooks(s, actions, k)
    decreases |actions|
  {
    if actions != [] {
      if actions[0].Webhook? { SettledAdvances(s, actions[0], k); } else { SettledStays(s, actions[0], k); }
      SettledOnlyWebhooks(Perform(s, actions[0]), actions[1..], k);
    }
  }

  /** From its acceptance on, in any run, a recipient's state is the state it had
      advanced by the events recorded for it since, whatever else happens. */
  lemma SettledFollowsEvents(s: Sys, actions: seq<Action>, k: Key)
    requires IsRun(s, actions) && k in s.db.progress && !Unsettled(s.db.progress[k])
    ensures var after := After(s, actions).db;
      && |s.db.events| <= |after.events| && after.events[..|s.db.events|] == s.db.events
      && k in after.progress
      && after.progress[k].state == Fold(s.db.progress[k].state, EventsFor(after.events[|s.db.events|..], k))
  {
    SettledOnlyWebhooks(s, actions, k);
    StateFollowsEvents(s, actions, k);
  }
}

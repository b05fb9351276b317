/** What stored rows keep through every run of durable email delivery: a provider
    id once written never changes, an accepted recipient never becomes pending
    again, and a stored request stays exactly what Setup stored. */
module EmailHistory {
  import opened Basics
  import opened Cells
  import opened EmailEvents
  import opened EmailStore
  import opened EmailHandlers
  import opened EmailProtocol
  import opened EmailInvariant
  import opened EmailApplying

  /** Pending, or submitted with an unknown outcome. */
  predicate Unsettled(row: Row) { row.state == Pending || Unresolved(row) }

  predicate RowGrows(row: Row, after: Row) {
    && after.name == row.name && after.variables == row.variables
    && (row.pmuid.Some? ==> after.pmuid == row.pmuid)
    && (!Unsettled(row) ==> !Unsettled(after))
  }

  ghost predicate RowsGrow(rows: Rows, after: Rows) {
    after.Keys == rows.Keys && forall k :: k in rows ==> RowGrows(rows[k], after[k])
  }

  /** Stored requests, their recipients and their owners stay; rows only grow. */
  ghost predicate Grows(db: Database, after: Database) {
    && (forall t :: t in db.requests ==> t in after.requests && after.requests[t] == db.requests[t])
    && (forall k :: k in db.progress ==> k in after.progress && RowGrows(db.progress[k], after.progress[k]))
    && (forall k :: k in after.progress && k.0 in db.requests ==> k in db.progress)
    && (forall k: Key :: k.0 in db.requests ==> OwnerOf(after.owners, k) == OwnerOf(db.owners, k))
  }

  lemma GrowsTransitive(a: Database, b: Database, c: Database)
    requires Grows(a, b) && Grows(b, c)
    ensures Grows(a, c)
  {
  }

  lemma RowsGrowGrows(db: Database, after: Rows)
    requires RowsGrow(db.progress, after)
    ensures Grows(db, db.(progress := after))
  {
  }

  lemma InsertGrows(db: Database, q: SendRequest, messageId: MessageId)
    requires DistinctRecipients(q) && InsertRequest(db, q, messageId).Ok?
    ensures Grows(db, InsertRequest(db, q, messageId).value)
  {
    if q.token !in db.requests {
      InsertRowsContents(db.progress, q, 0);
      InsertOwnersContents(db.owners, q, 0);
      forall k: Key | k.0 in db.requests ensures !Names(q, 0, k) {
      }
      forall k | k in db.progress ensures !Names(q, 0, k) {
      }
    }
  }

  lemma AcceptGrows(rows: Rows, key: Key, from: RowState, pmuid: Pmuid)
    ensures RowsGrow(rows, AcceptFrom(rows, key, from, pmuid))
  {
  }

  lemma WorkGrows(db: Database, work: Work)
    requires (work.Insert? ==> DistinctRecipients(work.request)) && RunWork(db, work).Ok?
    ensures Grows(db, RunWork(db, work).value)
  {
    match work
    case Insert(q, messageId) => InsertGrows(db, q, messageId);
    case Accept(key, pmuid) =>
      AcceptGrows(db.progress, key, Pending, pmuid);
      RowsGrowGrows(db, AcceptWork(db.progress, key, pmuid));
    case AcceptRecovered(key, pmuid) =>
      AcceptGrows(db.progress, key, RecoveryWaiting, pmuid);
      RowsGrowGrows(db, AcceptRecoveredWork(db.progress, key, pmuid));
    case _ =>
  }

  lemma {:induction false} WorksGrow(db: Database, works: seq<Work>)
    requires forall i :: 0 <= i < |works| && works[i].Insert? ==> DistinctRecipients(works[i].request)
    requires RunWorks(db, works).Ok?
    ensures Grows(db, RunWorks(db, works).value)
    decreases |works|
  {
    if works != [] {
      WorkGrows(db, works[0]);
      var next := RunWork(db, works[0]).value;
      WorksGrow(next, works[1..]);
      GrowsTransitive(db, next, RunWorks(db, works).value);
    }
  }

  /** Best-effort acceptance writes ids only where there was none. */
  lemma AcceptBestEffortGrows(rows: Rows, t: Token, messageId: MessageId, pending: seq<Recipient>)
    requires RowsSane(rows) && AcceptBestEffort(rows, t, messageId, pending, 0).Some?
    ensures RowsGrow(rows, AcceptBestEffort(rows, t, messageId, pending, 0).value)
  {
    AcceptBestEffortContents(rows, t, messageId, pending, 0);
    var after := AcceptBestEffort(rows, t, messageId, pending, 0).value;
    forall k | k in rows ensures RowGrows(rows[k], after[k]) {
      assert RowSane(rows[k]);
      if ListedFrom(t, pending, 0, k) {
        var i :| 0 <= i < |pending| && pending[i] == k.1;
        assert k == (t, pending[i]);
      }
    }
  }

  /** A worker only ever asks to insert a request whose recipients are distinct. */
  lemma WorksDistinct(
    requests: Requests, rows: Rows, cells: CellMap<Payload>, now: Time, log: seq<Trace>, payload: Payload, phase: Phase,
    result: EmailResult)
    requires PhaseFits(requests, rows, cells, now, log, payload, phase)
    requires PendingResult(payload, phase) == Some(result) && Storable(result)
    ensures forall i :: 0 <= i < |result.works| && result.works[i].Insert? ==> DistinctRecipients(result.works[i].request)
  {
  }

  lemma ApplyGrows(s: Sys, a: Action)
    requires Inv(s) && Enabled(s, a) && a.Apply?
    ensures Grows(s.db, Perform(s, a).db)
  {
    var payload, phase := CurrentPayload(s.cells[a.id]), s.phases[a.id];
    var result := PendingResult(payload, phase).value;
    WorksDistinct(s.db.requests, s.db.progress, s.cells, s.now, s.log, payload, phase, result);
    WorksGrow(s.db, result.works);
  }

  lemma AcceptNowGrows(s: Sys, a: Action)
    requires RowsSane(s.db.progress) && Enabled(s, a) && a.AcceptNow?
    ensures Grows(s.db, Perform(s, a).db)
  {
    AcceptBestEffortGrows(s.db.progress, CurrentPayload(s.cells[a.id]).token, s.phases[a.id].messageId, s.phases[a.id].pending);
    RowsGrowGrows(s.db, BestEffortRows(s, a.id).value);
  }

  lemma WebhookGrows(db: Database, key: Key, event: DeliveryEvent, at: Time)
    requires key in db.progress
    ensures Grows(db, RecordEvent(db, key, event, at))
  {
  }

  lemma StatementsGrow(db: Database, t: Token, at: Time)
    ensures Grows(db, db.(progress := MarkSubmitted(db.progress, t, at)))
    ensures Grows(db, db.(progress := RecoverSubmissions(db.progress)))
  {
    RowsGrowGrows(db, MarkSubmitted(db.progress, t, at));
    RowsGrowGrows(db, RecoverSubmissions(db.progress));
  }

  lemma StatementGrows(s: Sys, a: Action)
    requires Enabled(s, a) && (a.Webhook? || a.RecoverAll? || a.Mark?)
    ensures Grows(s.db, Perform(s, a).db)
  {
    match a
    case Webhook(key, event) => WebhookGrows(s.db, key, event, s.now);
    case RecoverAll => StatementsGrow(s.db, "", s.now);
    case Mark(id) => StatementsGrow(s.db, CurrentPayload(s.cells[id]).token, s.now);
  }

  /** The other actions leave the tables alone. */
  lemma OthersKeepTables(s: Sys, a: Action)
    requires Enabled(s, a) && !(a.Webhook? || a.RecoverAll? || a.Mark? || a.AcceptNow? || a.Apply?)
    ensures Perform(s, a).db == s.db
  {
  }

  lemma DirectGrows(s: Sys, a: Action)
    requires RowsSane(s.db.progress) && Enabled(s, a) && !a.Apply?
    ensures Grows(s.db, Perform(s, a).db)
  {
    if a.Webhook? || a.RecoverAll? || a.Mark? {
      StatementGrows(s, a);
    } else if a.AcceptNow? {
      AcceptNowGrows(s, a);
    } else {
      OthersKeepTables(s, a);
      RowsGrowGrows(s.db, s.db.progress);
    }
  }

  lemma ActionGrows(s: Sys, a: Action)
    requires Inv(s) && Enabled(s, a)
    ensures Grows(s.db, Perform(s, a).db)
  {
    if a.Apply? { ApplyGrows(s, a); } else { DirectGrows(s, a); }
  }

  /** Over any run: a written provider id never changes, and a recipient once
      accepted, sent, delivered or bounced is never pending or in recovery again. */
  lemma {:induction false} HistoryIsKept(s: Sys, actions: seq<Action>)
    requires Inv(s) && IsRun(s, actions)
    ensures Grows(s.db, After(s, actions).db)
    decreases |actions|
  {
    if actions == [] {
      RowsGrowGrows(s.db, s.db.progress);
    } else {
      var next := Perform(s, actions[0]);
      ActionGrows(s, actions[0]);
      ActionKeepsInv(s, actions[0]);
      HistoryIsKept(next, actions[1..]);
      GrowsTransitive(s.db, next.db, After(s, actions).db);
    }
  }

  lemma StoredStays(db: Database, after: Database, q: SendRequest)
    requires Stored(db, q) && Grows(db, after)
    ensures Stored(after, q)
  {
    forall i | 0 <= i < |q.recipients| ensures SameRecipient(after, q.token, q.recipients[i]) {
      assert SameRecipient(db, q.token, q.recipients[i]);
    }
  }

  /** Setup re-run at any later point of a run, with any freshly generated
      message id, reports no conflict and changes nothing. */
  lemma SetupNeverConflicts(s: Sys, actions: seq<Action>, q: SendRequest, messageId: MessageId)
    requires Inv(s) && IsRun(s, actions) && Stored(s.db, q)
    ensures InsertRequest(After(s, actions).db, q, messageId) == Ok(After(s, actions).db)
  {
    HistoryIsKept(s, actions);
    StoredStays(s.db, After(s, actions).db, q);
  }
}

/** Every action of durable email delivery keeps its invariant. */
module EmailSteps {
  import opened Basics
  import opened Cells
  import opened EmailEvents
  import opened EmailStore
  import opened EmailHandlers
  import opened EmailProtocol
  import opened EmailInvariant

  // ----- Time, webhooks, crashes -----

  lemma ElapseKeepsPhases(
    requests: Requests, rows: Rows, cells: CellMap<Payload>, phases: map<CellId, Phase>, now: Time, later: Time,
    log: seq<Trace>)
    requires PhasesFit(requests, rows, cells, phases, now, log) && now <= later
    ensures PhasesFit(requests, rows, cells, phases, later, log)
  {
  }

  lemma ElapseKeepsCells(requests: Requests, rows: Rows, now: Time, later: Time, cells: CellMap<Payload>)
    requires CellsFit(requests, rows, now, cells) && now <= later
    ensures CellsFit(requests, rows, later, cells)
  {
    forall id | id in cells ensures CellFits(requests, rows, later, cells[id]) {
      assert CellFits(requests, rows, now, cells[id]);
    }
  }

  lemma ElapseKeepsTrace(requests: Requests, rows: Rows, now: Time, later: Time, log: seq<Trace>)
    requires TraceFits(requests, rows, now, log) && now <= later
    ensures TraceFits(requests, rows, later, log)
  {
    forall key: Key ensures KeyFits(rows, later, key, Summarise(log, key)) {
      assert KeyFits(rows, now, key, Summarise(log, key));
    }
  }

  lemma ElapseKeepsInv(s: Sys, later: Time)
    requires Inv(s) && s.now <= later
    ensures Inv(s.(now := later))
  {
    ElapseKeepsPhases(s.db.requests, s.db.progress, s.cells, s.phases, s.now, later, s.log);
    ElapseKeepsCells(s.db.requests, s.db.progress, s.now, later, s.cells);
    ElapseKeepsTrace(s.db.requests, s.db.progress, s.now, later, s.log);
  }

  lemma WebhookSettles(rows: Rows, key: Key, event: DeliveryEvent)
    requires RowsSane(rows) && key in rows
    ensures var after := rows[key := rows[key].(state := EventState(rows[key].state, event))];
      Settles(rows, after) && RowsSane(after)
  {
    assert RowSane(rows[key]);
  }

  lemma WebhookKeepsInv(s: Sys, key: Key, event: DeliveryEvent)
    requires Inv(s) && key in s.db.progress
    ensures Inv(s.(db := RecordEvent(s.db, key, event, s.now)))
  {
    WebhookSettles(s.db.progress, key, event);
    SettlingKeepsInv(s, RecordEvent(s.db, key, event, s.now).progress);
  }

  lemma RecoverAllKeepsFit(requests: Requests, rows: Rows, now: Time, cells: CellMap<Payload>)
    requires CellsFit(requests, rows, now, cells) && FanoutApart(rows, cells)
    ensures CellsFit(requests, RecoverSubmissions(rows), now, cells) && FanoutApart(RecoverSubmissions(rows), cells)
  {
    var after := RecoverSubmissions(rows);
    forall id | id in cells ensures CellFits(requests, after, now, cells[id]) {
      assert CellFits(requests, rows, now, cells[id]);
    }
    forall a, b | a in cells && b in cells ensures Apart(after, RoleOf(cells[a]), RoleOf(cells[b])) {
      assert Apart(rows, RoleOf(cells[a]), RoleOf(cells[b]));
    }
  }

  /** Recovering turns exactly the rows in flight into recovery rows. */
  lemma RecoverAllKinds(rows: Rows)
    ensures var after := RecoverSubmissions(rows);
      forall k :: k in rows ==>
        && after[k].submittedAt == rows[k].submittedAt
        && KindOf(after[k]) == (if KindOf(rows[k]) == KInFlight then KRecovery else KindOf(rows[k]))
  {
  }

  lemma RecoverAllKeepsData(requests: Requests, rows: Rows, owners: map<Key, string>)
    requires DataFits(requests, rows, owners)
    ensures DataFits(requests, RecoverSubmissions(rows), owners)
  {
    RecoverAllKinds(rows);
    var after := RecoverSubmissions(rows);
    forall k, l | k in after && l in after && k.0 == l.0 ensures Compatible(KindOf(after[k]), KindOf(after[l])) {
      assert Compatible(KindOf(rows[k]), KindOf(rows[l]));
    }
  }

  lemma RecoverAllKeepsTrace(requests: Requests, rows: Rows, now: Time, log: seq<Trace>)
    requires TraceFits(requests, rows, now, log)
    ensures TraceFits(requests, RecoverSubmissions(rows), now, log)
  {
    RecoverAllKinds(rows);
    forall key: Key ensures KeyFits(RecoverSubmissions(rows), now, key, Summarise(log, key)) {
      assert KeyFits(rows, now, key, Summarise(log, key));
    }
  }

  lemma RecoverAllKeepsInv(s: Sys)
    requires Inv(s) && s.mode == Down
    ensures Inv(s.(mode := Recovered, db := s.db.(progress := RecoverSubmissions(s.db.progress))))
  {
    RecoverAllKinds(s.db.progress);
    RecoverAllKeepsFit(s.db.requests, s.db.progress, s.now, s.cells);
    RecoverAllKeepsData(s.db.requests, s.db.progress, s.db.owners);
    RecoverAllKeepsTrace(s.db.requests, s.db.progress, s.now, s.log);
  }

  // ----- Cells changing state only -----

  /** Same cells and steps; a cell becomes claimed only once its time has come. */
  ghost predicate Relabelled(before: CellMap<Payload>, after: CellMap<Payload>, now: Time) {
    && after.Keys == before.Keys
    && forall id :: id in before ==>
         && after[id] == before[id].(state := after[id].state)
         && (after[id].state == Claimed && before[id].state == Ready ==> Runnable(before[id], now))
  }

  lemma RelabelKeepsSane(before: CellMap<Payload>, after: CellMap<Payload>, senders: map<Token, CellId>, now: Time)
    requires CellsSane(before) && SendersMatch(before, senders) && Relabelled(before, after, now)
    ensures SameRoles(before, after) && CellsSane(after) && SendersMatch(after, senders)
  {
    assert forall id :: id in after ==> RoleOf(after[id]) == RoleOf(before[id]);
    forall id | id in after ensures Shaped(after[id]) { assert Shaped(before[id]); }
  }

  lemma RelabelKeepsFit(requests: Requests, rows: Rows, now: Time, before: CellMap<Payload>, after: CellMap<Payload>)
    requires CellsFit(requests, rows, now, before) && FanoutApart(rows, before)
    requires Relabelled(before, after, now) && SameRoles(before, after)
    ensures CellsFit(requests, rows, now, after) && FanoutApart(rows, after)
  {
    forall id | id in after ensures CellFits(requests, rows, now, after[id]) {
      assert CellFits(requests, rows, now, before[id]);
    }
    forall a, b | a in after && b in after ensures Apart(rows, RoleOf(after[a]), RoleOf(after[b])) {
      assert Apart(rows, RoleOf(before[a]), RoleOf(before[b]));
    }
  }

  lemma StartKeepsInv(s: Sys)
    requires Inv(s) && s.mode == Recovered
    ensures Inv(s.(mode := Up, cells := Cells.Recover(s.cells)))
  {
    RelabelKeepsSane(s.cells, Cells.Recover(s.cells), s.senders, s.now);
    RelabelKeepsFit(s.db.requests, s.db.progress, s.now, s.cells, Cells.Recover(s.cells));
  }

  lemma ClaimKeepsPhases(
    requests: Requests, rows: Rows, cells: CellMap<Payload>, phases: map<CellId, Phase>, now: Time, log: seq<Trace>,
    id: CellId)
    requires PhasesFit(requests, rows, cells, phases, now, log) && id in cells && cells[id].state == Ready
    requires 0 <= cells[id].currentStep < |cells[id].steps| && SameRoles(cells, Claim(cells, id))
    ensures PhasesFit(requests, rows, Claim(cells, id), phases[id := Begun], now, log)
  {
    forall o | o in phases
      ensures PhaseFits(requests, rows, Claim(cells, id), now, log, CurrentPayload(cells[o]), phases[o])
    {
      PhaseIgnoresReleases(requests, rows, cells, Claim(cells, id), now, log, CurrentPayload(cells[o]), phases[o]);
    }
  }

  lemma ClaimKeepsInv(s: Sys, id: CellId)
    requires Inv(s) && s.mode == Up && id in s.cells && Runnable(s.cells[id], s.now)
    ensures Inv(s.(cells := Claim(s.cells, id), phases := s.phases[id := Begun]))
  {
    RelabelKeepsSane(s.cells, Claim(s.cells, id), s.senders, s.now);
    RelabelKeepsFit(s.db.requests, s.db.progress, s.now, s.cells, Claim(s.cells, id));
    ClaimKeepsPhases(s.db.requests, s.db.progress, s.cells, s.phases, s.now, s.log, id);
    ClaimKeepsInFlight(s.db.progress, s.cells, s.senders, s.phases, s.mode, id);
  }

  lemma ClaimKeepsInFlight(
    rows: Rows, cells: CellMap<Payload>, senders: map<Token, CellId>, phases: map<CellId, Phase>, mode: Mode, id: CellId)
    requires InFlightOwned(rows, cells, senders, phases, mode) && id in cells && cells[id].state == Ready
    ensures InFlightOwned(rows, Claim(cells, id), senders, phases[id := Begun], mode)
  {
  }

  lemma SubmitKeepsInFlight(
    rows: Rows, cells: CellMap<Payload>, senders: map<Token, CellId>, phases: map<CellId, Phase>, mode: Mode,
    t: Token, cell: Cell<Payload>)
    requires InFlightOwned(rows, cells, senders, phases, mode) && t !in senders && cell.id !in cells
    ensures InFlightOwned(rows, cells[cell.id := cell], senders[t := cell.id], phases, mode)
  {
  }

  lemma SubmitKeepsStructure(s: Sys, cell: Cell<Payload>, t: Token)
    requires StructureFits(s.db.requests, s.db.progress, s.now, s.cells, s.senders)
    requires cell.id !in s.cells && t !in s.senders && RoleOf(cell) == SendRole(t) && Shaped(cell) && cell.currentStep == 0
    ensures Adds(s.cells, s.cells[cell.id := cell], cell)
    ensures StructureFits(s.db.requests, s.db.progress, s.now, s.cells[cell.id := cell], s.senders[t := cell.id])
  {
    var after := s.cells[cell.id := cell];
    AddingKeepsSane(s.cells, after, cell);
    AddingKeepsSenders(s.cells, after, s.senders, cell);
    AddingKeepsFit(s.db.requests, s.db.progress, s.now, s.cells, after, cell);
  }

  lemma SubmitKeepsInv(s: Sys, id: CellId, q: SendRequest)
    requires Inv(s) && id !in s.cells && q.token !in s.senders
    ensures Inv(s.(cells := s.cells[id := Cell(id, SendSteps(q), 0, Ready, None)], senders := s.senders[q.token := id]))
  {
    var cell := Cell(id, SendSteps(q), 0, Ready, None);
    assert RoleOf(cell) == SendRole(q.token) && Shaped(cell);
    SubmitKeepsStructure(s, cell, q.token);
    SubmitKeepsInFlight(s.db.progress, s.cells, s.senders, s.phases, s.mode, q.token, cell);
    AddingKeepsPhases(s.db.requests, s.db.progress, s.cells, s.cells[id := cell], s.phases, s.now, s.log, cell);
  }

  // ----- Reads and decisions -----

  lemma PayloadRole(cells: CellMap<Payload>, id: CellId)
    requires CellsSane(cells) && id in cells
    ensures var payload := CurrentPayload(cells[id]);
      && (payload.PostStep? ==> RoleOf(cells[id]) == SendRole(payload.token) && cells[id].currentStep == 2)
      && (payload.RecoveryStep? ==> RoleOf(cells[id]) == SendRole(payload.token) && cells[id].currentStep == 1)
      && (payload.SetupStep? ==> RoleOf(cells[id]) == SendRole(payload.request.token) && cells[id].currentStep == 0)
      && (payload.FanoutStep? ==> RoleOf(cells[id]) == FanoutRole(payload.token) && |cells[id].steps| == 1)
      && (payload.VerifyStep? ==> RoleOf(cells[id]) == VerifyRole(payload.key) && |cells[id].steps| == 1)
  {
    assert Shaped(cells[id]);
  }

  /** A recovery candidate excludes a live fanout, a waiting row and a pending row. */
  lemma CandidatesFit(
    requests: Requests, rows: Rows, owners: map<Key, string>, now: Time, cells: CellMap<Payload>, log: seq<Trace>,
    t: Token, deadline: Time)
    requires DataFits(requests, rows, owners) && CellsFit(requests, rows, now, cells)
    requires IsDeadline(rows, t, deadline)
    ensures PhaseFits(requests, rows, cells, now, log, RecoveryStep(t), RecoveryRead(deadline))
  {
    var c :| c in rows && c.0 == t && rows[c].state == Recovery;
    assert KindOf(rows[c]) == KRecovery;
    forall o | o in cells ensures RoleOf(cells[o]) != FanoutRole(t) {
      assert CellFits(requests, rows, now, cells[o]);
      assert !DueBy(rows[c], if cells[o].notBefore.Some? then cells[o].notBefore.value else 0);
    }
    forall k | k in rows && k.0 == t ensures KindOf(rows[k]) == KRecovery || KindOf(rows[k]) == KSettled {
      assert Compatible(KindOf(rows[c]), KindOf(rows[k]));
    }
  }

  lemma ExpansionFits(
    requests: Requests, rows: Rows, now: Time, cells: CellMap<Payload>, log: seq<Trace>,
    id: CellId, t: Token, waiting: seq<Recipient>, ids: seq<CellId>)
    requires FanoutApart(rows, cells) && id in cells && RoleOf(cells[id]) == FanoutRole(t) && |ids| == |waiting|
    requires Lists(waiting, InState(rows, t, RecoveryWaiting))
    ensures PhaseFits(requests, rows, cells, now, log, FanoutStep(t), FanoutRead(waiting, ids))
  {
    forall r | r in waiting ensures (t, r) in rows && NoneLive(cells, VerifyRole((t, r))) {
      assert r in InState(rows, t, RecoveryWaiting);
      forall o | o in cells ensures RoleOf(cells[o]) != VerifyRole((t, r)) {
        assert Apart(rows, RoleOf(cells[id]), RoleOf(cells[o]));
      }
    }
  }

  /** With nothing unresolved and nothing in flight, pending rows are fresh. */
  lemma ResolvedFits(
    rows: Rows, cells: CellMap<Payload>, senders: map<Token, CellId>, phases: map<CellId, Phase>, mode: Mode,
    id: CellId, t: Token)
    requires InFlightOwned(rows, cells, senders, phases, mode) && SendersMatch(cells, senders)
    requires id in cells && RoleOf(cells[id]) == SendRole(t) && id in phases && phases[id] == Begun
    requires !HasUnresolved(rows, t)
    ensures OnlyKind(rows, t, KFresh)
  {
    assert senders[t] == id;
    forall k | k in rows && k.0 == t ensures KindOf(rows[k]) == KFresh || KindOf(rows[k]) == KSettled {
      assert !Unresolved(rows[k]);
    }
  }

  lemma PendingFits(
    requests: Requests, rows: Rows, cells: CellMap<Payload>, now: Time, log: seq<Trace>, t: Token, pending: seq<Recipient>)
    requires TraceFits(requests, rows, now, log) && OnlyKind(rows, t, KFresh) && t in requests
    requires Lists(pending, InState(rows, t, Pending))
    ensures PhaseFits(requests, rows, cells, now, log, PostStep(t), PostRead(pending, requests[t].messageId))
  {
    forall k | k in rows && k.0 == t && KindOf(rows[k]) == KFresh ensures k.1 in pending {
      assert k.1 in InState(rows, t, Pending);
    }
    forall r | r in pending
      ensures (t, r) in rows && !Summarise(log, (t, r)).outstanding && Summarise(log, (t, r)).handling == Untouched
    {
      assert r in InState(rows, t, Pending);
      assert KeyFits(rows, now, (t, r), Summarise(log, (t, r)));
    }
  }

  lemma RowReadFits(
    requests: Requests, rows: Rows, cells: CellMap<Payload>, now: Time, log: seq<Trace>, key: Key)
    requires TraceFits(requests, rows, now, log) && key in rows && KindOf(rows[key]) == KWaiting
    requires DueBy(rows[key], now) && key.0 in requests
    ensures PhaseFits(requests, rows, cells, now, log, VerifyStep(key),
                      VerifyRead(rows[key].submittedAt.value, requests[key.0].messageId))
  {
    assert KeyFits(rows, now, key, Summarise(log, key));
  }

  /** What a worker already knows survives into its next phase. */
  ghost predicate MoveSound(s: Sys, id: CellId, move: Move)
    requires Working(s, id) && MoveEnabled(s, id, move)
  {
    PhaseFits(s.db.requests, s.db.progress, s.cells, s.now, s.log, CurrentPayload(s.cells[id]), NextPhase(s, id, move))
  }

  lemma CandidatesMoveFits(s: Sys, id: CellId, move: Move)
    requires Working(s, id) && MoveEnabled(s, id, move) && move.ReadCandidates?
    requires DataFits(s.db.requests, s.db.progress, s.db.owners) && CellsFit(s.db.requests, s.db.progress, s.now, s.cells)
    ensures MoveSound(s, id, move)
  {
    CandidatesFit(s.db.requests, s.db.progress, s.db.owners, s.now, s.cells, s.log,
                  CurrentPayload(s.cells[id]).token, move.deadline);
  }

  lemma ExpansionMoveFits(s: Sys, id: CellId, move: Move)
    requires Working(s, id) && MoveEnabled(s, id, move) && move.ExpandFanout?
    requires FanoutApart(s.db.progress, s.cells) && RoleOf(s.cells[id]) == FanoutRole(CurrentPayload(s.cells[id]).token)
    ensures MoveSound(s, id, move)
  {
    ExpansionFits(s.db.requests, s.db.progress, s.now, s.cells, s.log, id,
                  CurrentPayload(s.cells[id]).token, move.waiting, move.ids);
  }

  lemma UnresolvedMoveFits(s: Sys, id: CellId, move: Move)
    requires Working(s, id) && MoveEnabled(s, id, move) && move.CheckUnresolved?
    requires RoleOf(s.cells[id]) == SendRole(CurrentPayload(s.cells[id]).token) && SendersMatch(s.cells, s.senders)
    requires InFlightOwned(s.db.progress, s.cells, s.senders, s.phases, s.mode)
    ensures MoveSound(s, id, move)
  {
    var t := CurrentPayload(s.cells[id]).token;
    if !HasUnresolved(s.db.progress, t) { ResolvedFits(s.db.progress, s.cells, s.senders, s.phases, s.mode, id, t); }
  }

  lemma PendingMoveFits(s: Sys, id: CellId, move: Move)
    requires Working(s, id) && MoveEnabled(s, id, move) && move.ReadPending?
    requires TraceFits(s.db.requests, s.db.progress, s.now, s.log)
    requires PhaseFits(s.db.requests, s.db.progress, s.cells, s.now, s.log, CurrentPayload(s.cells[id]), s.phases[id])
    ensures MoveSound(s, id, move)
  {
    if move.pending != [] {
      PendingFits(s.db.requests, s.db.progress, s.cells, s.now, s.log, CurrentPayload(s.cells[id]).token, move.pending);
    }
  }

  lemma RowMoveFits(s: Sys, id: CellId, move: Move)
    requires Working(s, id) && MoveEnabled(s, id, move) && move.ReadRow?
    requires RoleOf(s.cells[id]) == VerifyRole(CurrentPayload(s.cells[id]).key)
    requires CellFits(s.db.requests, s.db.progress, s.now, s.cells[id])
    requires TraceFits(s.db.requests, s.db.progress, s.now, s.log)
    ensures MoveSound(s, id, move)
  {
    var key := CurrentPayload(s.cells[id]).key;
    if key in s.db.progress && s.db.progress[key].state == RecoveryWaiting {
      RowReadFits(s.db.requests, s.db.progress, s.cells, s.now, s.log, key);
    }
  }

  /** The other moves carry over what the worker knew, or nothing. */
  lemma LocalMoveFits(s: Sys, id: CellId, move: Move)
    requires Working(s, id) && MoveEnabled(s, id, move)
    requires move.RunSetup? || move.ReadNoCandidates? || move.ReadWaiting? || move.Defer?
    requires PhaseFits(s.db.requests, s.db.progress, s.cells, s.now, s.log, CurrentPayload(s.cells[id]), s.phases[id])
    ensures MoveSound(s, id, move)
  {
  }

  lemma MoveFits(s: Sys, id: CellId, move: Move)
    requires Inv(s) && Working(s, id) && MoveEnabled(s, id, move)
    ensures MoveSound(s, id, move)
  {
    PayloadRole(s.cells, id);
    match move
    case ReadCandidates(_) => CandidatesMoveFits(s, id, move);
    case ExpandFanout(_, _) => ExpansionMoveFits(s, id, move);
    case CheckUnresolved => UnresolvedMoveFits(s, id, move);
    case ReadPending(_) => PendingMoveFits(s, id, move);
    case ReadRow =>
      assert CellFits(s.db.requests, s.db.progress, s.now, s.cells[id]);
      RowMoveFits(s, id, move);
    case _ => LocalMoveFits(s, id, move);
  }

  lemma StepKeepsInv(s: Sys, id: CellId, move: Move)
    requires Inv(s) && Working(s, id) && MoveEnabled(s, id, move)
    ensures Inv(s.(phases := s.phases[id := NextPhase(s, id, move)]))
  {
    MoveFits(s, id, move);
    MovingKeepsInv(s, id, NextPhase(s, id, move));
  }
}

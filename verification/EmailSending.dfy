/** The actions of Post and Verify that reach the provider keep the invariant.
    Each is followed from the worker letting go, through the changes of rows and
    trace, to the worker resuming in its next phase. */
module EmailSending {
  import opened Basics
  import opened Cells
  import opened EmailEvents
  import opened EmailStore
  import opened EmailHandlers
  import opened EmailProtocol
  import opened EmailInvariant
  import opened EmailSteps

  /** Besides `id`, only fanout and verify workers may be busy with the token. */
  ghost predicate SoleSender(cells: CellMap<Payload>, phases: map<CellId, Phase>, id: CellId, t: Token) {
    forall o :: o in phases && o != id && o in cells && 0 <= cells[o].currentStep < |cells[o].steps| ==>
      var payload := CurrentPayload(cells[o]);
      PayloadToken(payload) != t || payload.FanoutStep? || payload.VerifyStep?
  }

  lemma SenderIsSole(cells: CellMap<Payload>, phases: map<CellId, Phase>, id: CellId, t: Token)
    requires CellsSane(cells) && id in cells && RoleOf(cells[id]) == SendRole(t)
    ensures SoleSender(cells, phases, id, t)
  {
    forall o | o in phases && o != id && o in cells
      ensures var payload := CurrentPayload(cells[o]);
        PayloadToken(payload) != t || payload.FanoutStep? || payload.VerifyStep?
    {
      PayloadRole(cells, o);
      assert RoleOf(cells[o]) != RoleOf(cells[id]);
    }
  }

  /** A cell whose Post step is claimed and whose worker is between two phases. */
  ghost predicate Posting(s: Sys, id: CellId, t: Token) {
    && s.mode == Up && id !in s.phases && id in s.cells && s.cells[id].state == Claimed
    && s.cells[id].currentStep == 2 && |s.cells[id].steps| == 3
    && s.cells[id].steps[2].payload == PostStep(t) && RoleOf(s.cells[id]) == SendRole(t)
    && SoleSender(s.cells, s.phases, id, t)
  }

  /** Letting go of a worker, and what it knew. */
  lemma LettingGo(s: Sys, id: CellId)
    requires Inv(s) && Working(s, id)
    ensures Inv(s.(phases := s.phases - {id}))
    ensures s.mode == Up && s.cells[id].state == Claimed
    ensures PhaseFits(s.db.requests, s.db.progress, s.cells, s.now, s.log, CurrentPayload(s.cells[id]), s.phases[id])
  {
    DroppingKeepsInv(s, id);
  }

  lemma LettingGoOfPost(s: Sys, id: CellId)
    requires Inv(s) && Working(s, id) && CurrentPayload(s.cells[id]).PostStep?
    ensures Inv(s.(phases := s.phases - {id}))
    ensures Posting(s.(phases := s.phases - {id}), id, CurrentPayload(s.cells[id]).token)
    ensures PhaseFits(s.db.requests, s.db.progress, s.cells, s.now, s.log, CurrentPayload(s.cells[id]), s.phases[id])
  {
    LettingGo(s, id);
    PayloadRole(s.cells, id);
    SenderIsSole(s.cells, s.phases - {id}, id, CurrentPayload(s.cells[id]).token);
  }

  // ----- Marking -----

  lemma MarkKinds(rows: Rows, t: Token, now: Time)
    requires OnlyKind(rows, t, KFresh)
    ensures var after := MarkSubmitted(rows, t, now);
      && OnlyToken(rows, after, t) && OnlyKind(after, t, KInFlight)
      && forall k :: k in rows && k.0 == t ==>
           if KindOf(rows[k]) == KSettled then after[k] == rows[k]
           else KindOf(rows[k]) == KFresh && KindOf(after[k]) == KInFlight && after[k] == rows[k].(submittedAt := Some(now))
  {
    assert forall k :: k in rows ==> KindOf(rows[k]) == KSettled ==> rows[k].state != Pending;
  }

  lemma MarkKeepsData(requests: Requests, rows: Rows, owners: map<Key, string>, t: Token, now: Time)
    requires DataFits(requests, rows, owners) && OnlyKind(rows, t, KFresh)
    ensures DataFits(requests, MarkSubmitted(rows, t, now), owners)
  {
    MarkKinds(rows, t, now);
    var after := MarkSubmitted(rows, t, now);
    forall k, l | k in after && l in after && k.0 == l.0 ensures Compatible(KindOf(after[k]), KindOf(after[l])) {
      assert Compatible(KindOf(rows[k]), KindOf(rows[l]));
    }
    forall k | k in after ensures RowSane(after[k]) { assert RowSane(rows[k]); }
  }

  /** Rows that are neither settled nor waiting are invisible to fanout and verify cells. */
  ghost predicate LeavesSettled(rows: Rows, after: Rows, t: Token) {
    forall k :: k in rows && k.0 == t && (KindOf(rows[k]) == KSettled || KindOf(rows[k]) == KWaiting) ==>
      k in after && after[k] == rows[k]
  }

  lemma SettledUnaffected(requests: Requests, rows: Rows, after: Rows, now: Time, cells: CellMap<Payload>, t: Token)
    requires CellsFit(requests, rows, now, cells) && LeavesSettled(rows, after, t) && after.Keys == rows.Keys
    ensures CellsUnaffected(rows, after, cells, t)
  {
    forall id | id in cells && RoleOf(cells[id]) == FanoutRole(t)
      ensures forall k :: k in after && k.0 == t ==> k in rows && after[k] == rows[k]
    {
      assert CellFits(requests, rows, now, cells[id]);
    }
    forall id | id in cells && RoleOf(cells[id]).VerifyRole? && RoleOf(cells[id]).key.0 == t
      ensures var key := RoleOf(cells[id]).key; key in rows && key in after && after[key] == rows[key]
    {
      assert CellFits(requests, rows, now, cells[id]);
    }
  }

  /** A verify worker's cell plays the verify role of its key. */
  lemma SettledUndisturbed(
    requests: Requests, rows: Rows, after: Rows, now: Time, cells: CellMap<Payload>, phases: map<CellId, Phase>,
    log: seq<Trace>, id: CellId, t: Token)
    requires CellsSane(cells) && CellsFit(requests, rows, now, cells) && PhasesFit(requests, rows, cells, phases, now, log)
    requires LeavesSettled(rows, after, t) && SoleSender(cells, phases, id, t) && id !in phases
    ensures Undisturbed(rows, after, cells, phases, t)
  {
    forall o | o in phases && o in cells && PayloadToken(CurrentPayload(cells[o])) == t
      ensures var payload := CurrentPayload(cells[o]);
        || Detached(phases[o]) || phases[o].FanoutRead?
        || (payload.VerifyStep? && payload.key in rows && payload.key in after && after[payload.key] == rows[payload.key])
    {
      PayloadRole(cells, o);
      assert CellFits(requests, rows, now, cells[o]);
      assert PhaseFits(requests, rows, cells, now, log, CurrentPayload(cells[o]), phases[o]);
    }
  }

  lemma MarkKeepsInFlight(
    rows: Rows, cells: CellMap<Payload>, senders: map<Token, CellId>, phases: map<CellId, Phase>, mode: Mode,
    id: CellId, t: Token, now: Time)
    requires InFlightOwned(rows, cells, senders, phases, mode) && SendersMatch(cells, senders)
    requires id in cells && RoleOf(cells[id]) == SendRole(t) && id !in phases && mode == Up
    requires cells[id].state == Claimed && cells[id].currentStep == 2
    ensures InFlightOwned(MarkSubmitted(rows, t, now), cells, senders, phases, mode)
  {
    assert senders[t] == id;
  }

  lemma MarkKeepsKeys(rows: Rows, t: Token, now: Time, log: seq<Trace>, requests: Requests)
    requires TraceFits(requests, rows, now, log) && OnlyKind(rows, t, KFresh)
    ensures var after := MarkSubmitted(rows, t, now);
      forall k :: k in after && k.0 == t ==> KeyFits(after, now, k, Summarise(log, k))
  {
    var after := MarkSubmitted(rows, t, now);
    MarkKinds(rows, t, now);
    forall k | k in after && k.0 == t ensures KeyFits(after, now, k, Summarise(log, k)) {
      assert KeyFits(rows, now, k, Summarise(log, k));
    }
  }

  lemma MarkRowsKeepsInv(s: Sys, id: CellId, t: Token)
    requires Inv(s) && Posting(s, id, t) && OnlyKind(s.db.progress, t, KFresh)
    ensures Inv(s.(db := s.db.(progress := MarkSubmitted(s.db.progress, t, s.now))))
  {
    var rows, after := s.db.progress, MarkSubmitted(s.db.progress, t, s.now);
    MarkKinds(rows, t, s.now);
    MarkKeepsData(s.db.requests, rows, s.db.owners, t, s.now);
    SettledUnaffected(s.db.requests, rows, after, s.now, s.cells, t);
    SettledUndisturbed(s.db.requests, rows, after, s.now, s.cells, s.phases, s.log, id, t);
    MarkKeepsInFlight(rows, s.cells, s.senders, s.phases, s.mode, id, t, s.now);
    MarkKeepsKeys(rows, t, s.now, s.log, s.db.requests);
    RowChangeKeepsInv(s, after, t);
  }

  /** Stamping concerns no row a verification looks at, and not before now. */
  lemma MarkEventKeepsInv(s: Sys, id: CellId, t: Token, stamped: set<Recipient>)
    requires Inv(s) && Posting(s, id, t)
    requires forall r :: r in stamped ==>
      (t, r) in s.db.progress && KindOf(s.db.progress[(t, r)]) == KInFlight
      && s.db.progress[(t, r)].submittedAt == Some(s.now)
    ensures Inv(s.(log := s.log + [Marked(t, stamped, s.now)]))
  {
    var e := Marked(t, stamped, s.now);
    forall o | o in s.phases ensures Tolerates(s.db.progress, s.log, e, CurrentPayload(s.cells[o]), s.phases[o]) {
      MarkTolerated(s.db.requests, s.db.progress, s.now, s.cells, s.phases, s.log, id, t, stamped, o);
    }
    forall key: Key ensures KeyFits(s.db.progress, s.now, key, Absorb(Summarise(s.log, key), key, e)) {
      assert KeyFits(s.db.progress, s.now, key, Summarise(s.log, key));
    }
    EventKeepsInv(s, e);
  }

  lemma MarkTolerated(
    requests: Requests, rows: Rows, now: Time, cells: CellMap<Payload>, phases: map<CellId, Phase>, log: seq<Trace>,
    id: CellId, t: Token, stamped: set<Recipient>, o: CellId)
    requires CellsSane(cells) && CellsFit(requests, rows, now, cells) && PhasesFit(requests, rows, cells, phases, now, log)
    requires SoleSender(cells, phases, id, t) && id !in phases && o in phases
    requires forall r :: r in stamped ==> (t, r) in rows && KindOf(rows[(t, r)]) == KInFlight
    ensures Tolerates(rows, log, Marked(t, stamped, now), CurrentPayload(cells[o]), phases[o])
  {
    PayloadRole(cells, o);
    assert CellFits(requests, rows, now, cells[o]);
    assert PhaseFits(requests, rows, cells, now, log, CurrentPayload(cells[o]), phases[o]);
  }

  lemma MarkedFits(
    requests: Requests, rows: Rows, cells: CellMap<Payload>, now: Time, log: seq<Trace>, t: Token,
    pending: seq<Recipient>, messageId: MessageId)
    requires PhaseFits(requests, rows, cells, now, log, PostStep(t), PostRead(pending, messageId))
    ensures PhaseFits(requests, MarkSubmitted(rows, t, now), cells, now,
                      log + [Marked(t, InState(rows, t, Pending), now)], PostStep(t), PostMarked(pending, messageId))
  {
    MarkKinds(rows, t, now);
    Extended(log, Marked(t, InState(rows, t, Pending), now));
  }

  lemma StampedRows(rows: Rows, t: Token, now: Time)
    requires OnlyKind(rows, t, KFresh)
    ensures forall r :: r in InState(rows, t, Pending) ==>
      var after := MarkSubmitted(rows, t, now);
      (t, r) in after && KindOf(after[(t, r)]) == KInFlight && after[(t, r)].submittedAt == Some(now)
  {
    MarkKinds(rows, t, now);
  }

  lemma StampingKeepsInv(s: Sys, id: CellId, t: Token)
    requires Inv(s) && Posting(s, id, t) && OnlyKind(s.db.progress, t, KFresh)
    ensures Inv(s.(db := s.db.(progress := MarkSubmitted(s.db.progress, t, s.now)),
                   log := s.log + [Marked(t, InState(s.db.progress, t, Pending), s.now)]))
  {
    MarkRowsKeepsInv(s, id, t);
    StampedRows(s.db.progress, t, s.now);
    MarkEventKeepsInv(s.(db := s.db.(progress := MarkSubmitted(s.db.progress, t, s.now))), id, t,
                      InState(s.db.progress, t, Pending));
  }

  /** A post worker resumes in a phase that fits. */
  lemma PostResumes(s: Sys, id: CellId, t: Token, phase: Phase)
    requires Inv(s) && Posting(s, id, t)
    requires PhaseFits(s.db.requests, s.db.progress, s.cells, s.now, s.log, PostStep(t), phase)
    requires phase.PostMarked? || phase.PostAnswered? || OnlyKind(s.db.progress, t, KSettled)
    ensures Inv(s.(phases := s.phases[id := phase]))
  {
    ResumingKeepsInv(s, id, phase);
  }

  lemma MarkAndResume(s: Sys, id: CellId, t: Token, pending: seq<Recipient>, messageId: MessageId)
    requires Inv(s) && Posting(s, id, t)
    requires PhaseFits(s.db.requests, s.db.progress, s.cells, s.now, s.log, PostStep(t), PostRead(pending, messageId))
    ensures Inv(s.(db := s.db.(progress := MarkSubmitted(s.db.progress, t, s.now)),
                   log := s.log + [Marked(t, InState(s.db.progress, t, Pending), s.now)],
                   phases := s.phases[id := PostMarked(pending, messageId)]))
  {
    StampingKeepsInv(s, id, t);
    MarkedFits(s.db.requests, s.db.progress, s.cells, s.now, s.log, t, pending, messageId);
    PostResumes(s.(db := s.db.(progress := MarkSubmitted(s.db.progress, t, s.now)),
                   log := s.log + [Marked(t, InState(s.db.progress, t, Pending), s.now)]),
                id, t, PostMarked(pending, messageId));
  }

  /** The marked state, seen from the state without the worker. */
  lemma MarkedStateIs(s: Sys, id: CellId)
    requires CanMark(s, id)
    ensures var t, phase, s1 := CurrentPayload(s.cells[id]).token, s.phases[id], s.(phases := s.phases - {id});
      MarkedState(s, id) ==
        s1.(db := s1.db.(progress := MarkSubmitted(s1.db.progress, t, s1.now)),
            log := s1.log + [Marked(t, InState(s1.db.progress, t, Pending), s1.now)],
            phases := s1.phases[id := PostMarked(phase.pending, phase.messageId)])
  {
    assert (s.phases - {id})[id := MarkedState(s, id).phases[id]] == MarkedState(s, id).phases;
  }

  lemma MarkKeepsInv(s: Sys, id: CellId)
    requires Inv(s) && CanMark(s, id)
    ensures Inv(MarkedState(s, id))
  {
    LettingGoOfPost(s, id);
    MarkedStateIs(s, id);
    MarkAndResume(s.(phases := s.phases - {id}), id, CurrentPayload(s.cells[id]).token,
                  s.phases[id].pending, s.phases[id].messageId);
  }

  // ----- Sending -----

  /** A send is tolerated by every other worker when no row of the token waits for verification. */
  lemma SendTolerated(
    requests: Requests, rows: Rows, now: Time, cells: CellMap<Payload>, phases: map<CellId, Phase>, log: seq<Trace>,
    id: CellId, t: Token, e: Trace, o: CellId)
    requires CellsSane(cells) && PhasesFit(requests, rows, cells, phases, now, log)
    requires SoleSender(cells, phases, id, t) && id !in phases && o in phases
    requires forall k :: k in rows && k.0 == t ==> KindOf(rows[k]) != KWaiting
    requires (e.Mailed? || e.Handled?) && e.token == t
    ensures Tolerates(rows, log, e, CurrentPayload(cells[o]), phases[o])
  {
    PayloadRole(cells, o);
    assert PhaseFits(requests, rows, cells, now, log, CurrentPayload(cells[o]), phases[o]);
  }

  /** Mail of rows that are no longer fresh fits the rows. */
  lemma SendKeepsKeys(requests: Requests, rows: Rows, now: Time, log: seq<Trace>, e: Trace)
    requires TraceFits(requests, rows, now, log) && e.Mailed?
    requires forall r :: r in e.recipients ==>
      (e.token, r) in rows && KindOf(rows[(e.token, r)]) != KFresh && (e.bestEffort ==> KindOf(rows[(e.token, r)]) == KSettled)
    ensures forall key: Key :: KeyFits(rows, now, key, Absorb(Summarise(log, key), key, e))
  {
    forall key: Key ensures KeyFits(rows, now, key, Absorb(Summarise(log, key), key, e)) {
      assert KeyFits(rows, now, key, Summarise(log, key));
    }
  }

  lemma SendEventKeepsInv(s: Sys, id: CellId, t: Token, e: Trace)
    requires Inv(s) && Posting(s, id, t) && e.Mailed? && e.token == t && Respects(s.log, e)
    requires HasMessage(s.db.requests, t, e.messageId)
    requires forall k :: k in s.db.progress && k.0 == t ==> KindOf(s.db.progress[k]) != KWaiting
    requires forall r :: r in e.recipients ==>
      && (t, r) in s.db.progress && KindOf(s.db.progress[(t, r)]) != KFresh
      && (e.bestEffort ==> KindOf(s.db.progress[(t, r)]) == KSettled)
    ensures Inv(s.(log := s.log + [e]))
  {
    forall o | o in s.phases ensures Tolerates(s.db.progress, s.log, e, CurrentPayload(s.cells[o]), s.phases[o]) {
      SendTolerated(s.db.requests, s.db.progress, s.now, s.cells, s.phases, s.log, id, t, e, o);
    }
    SendKeepsKeys(s.db.requests, s.db.progress, s.now, s.log, e);
    EventKeepsInv(s, e);
  }

  /** What the worker knows is what the trace demands of the send. */
  lemma SendRespects(
    requests: Requests, rows: Rows, cells: CellMap<Payload>, now: Time, log: seq<Trace>, t: Token,
    pending: seq<Recipient>, messageId: MessageId, bestEffort: bool)
    requires TraceFits(requests, rows, now, log)
    requires PhaseFits(requests, rows, cells, now, log, PostStep(t),
                       if bestEffort then PostAccepted(pending, messageId) else PostMarked(pending, messageId))
    ensures Respects(log, Mailed(t, pending, messageId, bestEffort)) && HasMessage(requests, t, messageId)
    ensures forall k :: k in rows && k.0 == t ==> KindOf(rows[k]) != KWaiting
    ensures forall r :: r in pending ==>
      && (t, r) in rows && KindOf(rows[(t, r)]) != KFresh && (bestEffort ==> KindOf(rows[(t, r)]) == KSettled)
  {
  }

  lemma SendAndResume(
    s: Sys, id: CellId, t: Token, pending: seq<Recipient>, messageId: MessageId, sendAnswer: SendAnswer)
    requires Inv(s) && Posting(s, id, t)
    requires PhaseFits(s.db.requests, s.db.progress, s.cells, s.now, s.log, PostStep(t), PostMarked(pending, messageId))
    ensures Inv(s.(log := s.log + [Mailed(t, pending, messageId, false)],
                   phases := s.phases[id := PostAnswered(pending, sendAnswer)]))
  {
    var e := Mailed(t, pending, messageId, false);
    SendRespects(s.db.requests, s.db.progress, s.cells, s.now, s.log, t, pending, messageId, false);
    SendEventKeepsInv(s, id, t, e);
    PostResumes(s.(log := s.log + [e]), id, t, PostAnswered(pending, sendAnswer));
  }

  lemma SentStateIs(s: Sys, id: CellId, sendAnswer: SendAnswer)
    requires CanSend(s, id)
    ensures var t, phase, s1 := CurrentPayload(s.cells[id]).token, s.phases[id], s.(phases := s.phases - {id});
      SentState(s, id, sendAnswer) ==
        s1.(log := s1.log + [Mailed(t, phase.pending, phase.messageId, false)],
            phases := s1.phases[id := PostAnswered(phase.pending, sendAnswer)])
  {
    assert (s.phases - {id})[id := SentState(s, id, sendAnswer).phases[id]] == SentState(s, id, sendAnswer).phases;
  }

  lemma SendKeepsInv(s: Sys, id: CellId, sendAnswer: SendAnswer)
    requires Inv(s) && CanSend(s, id)
    ensures Inv(SentState(s, id, sendAnswer))
  {
    LettingGoOfPost(s, id);
    SentStateIs(s, id, sendAnswer);
    SendAndResume(s.(phases := s.phases - {id}), id, CurrentPayload(s.cells[id]).token,
                  s.phases[id].pending, s.phases[id].messageId, sendAnswer);
  }

  // ----- Best effort -----

  /** Accepting the whole pending list settles every unsettled row of the token. */
  lemma HandlingSettles(
    requests: Requests, rows: Rows, cells: CellMap<Payload>, now: Time, log: seq<Trace>, t: Token,
    pending: seq<Recipient>, messageId: MessageId)
    requires RowsSane(rows) && AcceptBestEffort(rows, t, messageId, pending, 0).Some?
    requires PhaseFits(requests, rows, cells, now, log, PostStep(t), PostRead(pending, messageId))
    ensures var after := AcceptBestEffort(rows, t, messageId, pending, 0).value;
      Settles(rows, after) && RowsSane(after) && OnlyKind(after, t, KSettled)
  {
    AcceptBestEffortContents(rows, t, messageId, pending, 0);
    var after := AcceptBestEffort(rows, t, messageId, pending, 0).value;
    forall k | k in rows
      ensures after[k].submittedAt == rows[k].submittedAt && RowSane(after[k])
      ensures KindOf(after[k]) == KSettled || (k.0 != t && KindOf(after[k]) == KindOf(rows[k]))
    {
      assert RowSane(rows[k]);
      if ListedFrom(t, pending, 0, k) {
        var i :| 0 <= i < |pending| && pending[i] == k.1;
        assert k == (t, pending[i]);
      } else {
        assert k.0 == t && KindOf(rows[k]) == KFresh ==> k.1 in pending;
      }
    }
  }

  lemma HandledEventKeepsInv(s: Sys, id: CellId, t: Token, pending: seq<Recipient>)
    requires Inv(s) && Posting(s, id, t) && OnlyKind(s.db.progress, t, KSettled) && Sendable(s.log, t, pending)
    requires forall r :: r in pending ==> (t, r) in s.db.progress
    ensures Inv(s.(log := s.log + [Handled(t, pending)]))
  {
    var e := Handled(t, pending);
    forall o | o in s.phases ensures Tolerates(s.db.progress, s.log, e, CurrentPayload(s.cells[o]), s.phases[o]) {
      SendTolerated(s.db.requests, s.db.progress, s.now, s.cells, s.phases, s.log, id, t, e, o);
    }
    forall key: Key ensures KeyFits(s.db.progress, s.now, key, Absorb(Summarise(s.log, key), key, e)) {
      assert KeyFits(s.db.progress, s.now, key, Summarise(s.log, key));
    }
    EventKeepsInv(s, e);
  }

  lemma AcceptedFits(
    requests: Requests, rows: Rows, cells: CellMap<Payload>, now: Time, log: seq<Trace>, t: Token,
    pending: seq<Recipient>, messageId: MessageId)
    requires OnlyKind(rows, t, KSettled) && Sendable(log, t, pending) && HasMessage(requests, t, messageId)
    requires forall r :: r in pending ==> (t, r) in rows
    ensures PhaseFits(requests, rows, cells, now, log + [Handled(t, pending)], PostStep(t), PostAccepted(pending, messageId))
  {
    Extended(log, Handled(t, pending));
  }

  lemma HandlingKeepsInv(s: Sys, id: CellId, t: Token, pending: seq<Recipient>, after: Rows)
    requires Inv(s) && Posting(s, id, t) && Settles(s.db.progress, after) && RowsSane(after)
    requires OnlyKind(after, t, KSettled) && Sendable(s.log, t, pending)
    requires forall r :: r in pending ==> (t, r) in s.db.progress
    ensures Inv(s.(db := s.db.(progress := after), log := s.log + [Handled(t, pending)]))
  {
    SettlingKeepsInv(s, after);
    HandledEventKeepsInv(s.(db := s.db.(progress := after)), id, t, pending);
  }

  lemma HandleAndResume(s: Sys, id: CellId, t: Token, pending: seq<Recipient>, messageId: MessageId)
    requires Inv(s) && Posting(s, id, t) && AcceptBestEffort(s.db.progress, t, messageId, pending, 0).Some?
    requires PhaseFits(s.db.requests, s.db.progress, s.cells, s.now, s.log, PostStep(t), PostRead(pending, messageId))
    ensures Inv(s.(db := s.db.(progress := AcceptBestEffort(s.db.progress, t, messageId, pending, 0).value),
                   log := s.log + [Handled(t, pending)],
                   phases := s.phases[id := PostAccepted(pending, messageId)]))
  {
    var after := AcceptBestEffort(s.db.progress, t, messageId, pending, 0).value;
    HandlingSettles(s.db.requests, s.db.progress, s.cells, s.now, s.log, t, pending, messageId);
    HandlingKeepsInv(s, id, t, pending, after);
    AcceptedFits(s.db.requests, after, s.cells, s.now, s.log, t, pending, messageId);
    PostResumes(s.(db := s.db.(progress := after), log := s.log + [Handled(t, pending)]), id, t,
                PostAccepted(pending, messageId));
  }

  lemma HandledStateIs(s: Sys, id: CellId)
    requires CanMark(s, id) && BestEffortRows(s, id).Some?
    ensures var t, phase, s1 := CurrentPayload(s.cells[id]).token, s.phases[id], s.(phases := s.phases - {id});
      HandledState(s, id) ==
        s1.(db := s1.db.(progress := AcceptBestEffort(s1.db.progress, t, phase.messageId, phase.pending, 0).value),
            log := s1.log + [Handled(t, phase.pending)],
            phases := s1.phases[id := PostAccepted(phase.pending, phase.messageId)])
  {
    assert (s.phases - {id})[id := HandledState(s, id).phases[id]] == HandledState(s, id).phases;
  }

  lemma AcceptNowKeepsInv(s: Sys, id: CellId)
    requires Inv(s) && CanMark(s, id) && BestEffortRows(s, id).Some?
    ensures Inv(HandledState(s, id))
  {
    LettingGoOfPost(s, id);
    HandledStateIs(s, id);
    HandleAndResume(s.(phases := s.phases - {id}), id, CurrentPayload(s.cells[id]).token,
                    s.phases[id].pending, s.phases[id].messageId);
  }

  lemma BestEffortSendAndResume(s: Sys, id: CellId, t: Token, pending: seq<Recipient>, messageId: MessageId)
    requires Inv(s) && Posting(s, id, t)
    requires PhaseFits(s.db.requests, s.db.progress, s.cells, s.now, s.log, PostStep(t), PostAccepted(pending, messageId))
    ensures Inv(s.(log := s.log + [Mailed(t, pending, messageId, true)],
                   phases := s.phases[id := Plain(Complete([], []))]))
  {
    var e := Mailed(t, pending, messageId, true);
    SendRespects(s.db.requests, s.db.progress, s.cells, s.now, s.log, t, pending, messageId, true);
    SendEventKeepsInv(s, id, t, e);
    PostResumes(s.(log := s.log + [e]), id, t, Plain(Complete([], [])));
  }

  lemma BestEffortSentStateIs(s: Sys, id: CellId)
    requires CanSendBestEffort(s, id)
    ensures var t, phase, s1 := CurrentPayload(s.cells[id]).token, s.phases[id], s.(phases := s.phases - {id});
      BestEffortSentState(s, id) ==
        s1.(log := s1.log + [Mailed(t, phase.pending, phase.messageId, true)],
            phases := s1.phases[id := Plain(Complete([], []))])
  {
    assert (s.phases - {id})[id := BestEffortSentState(s, id).phases[id]] == BestEffortSentState(s, id).phases;
  }

  lemma SendBestEffortKeepsInv(s: Sys, id: CellId)
    requires Inv(s) && CanSendBestEffort(s, id)
    ensures Inv(BestEffortSentState(s, id))
  {
    LettingGoOfPost(s, id);
    BestEffortSentStateIs(s, id);
    BestEffortSendAndResume(s.(phases := s.phases - {id}), id, CurrentPayload(s.cells[id]).token,
                            s.phases[id].pending, s.phases[id].messageId);
  }

  // ----- Asking -----

  lemma AskRespects(
    requests: Requests, rows: Rows, cells: CellMap<Payload>, now: Time, log: seq<Trace>, key: Key,
    sentAt: Time, messageId: MessageId, answer: Answer)
    requires TraceFits(requests, rows, now, log)
    requires PhaseFits(requests, rows, cells, now, log, VerifyStep(key), VerifyRead(sentAt, messageId))
    ensures Respects(log, Verified(key, messageId, sentAt, now, answer)) && HasMessage(requests, key.0, messageId)
    ensures PhaseFits(requests, rows, cells, now, log + [Verified(key, messageId, sentAt, now, answer)],
                      VerifyStep(key), VerifyAnswered(answer))
  {
    Extended(log, Verified(key, messageId, sentAt, now, answer));
  }

  lemma AskEventKeepsInv(s: Sys, e: Trace)
    requires Inv(s) && e.Verified? && Respects(s.log, e) && HasMessage(s.db.requests, e.key.0, e.messageId)
    ensures Inv(s.(log := s.log + [e]))
  {
    forall key: Key ensures KeyFits(s.db.progress, s.now, key, Absorb(Summarise(s.log, key), key, e)) {
      assert KeyFits(s.db.progress, s.now, key, Summarise(s.log, key));
    }
    EventKeepsInv(s, e);
  }

  lemma AskAndResume(s: Sys, id: CellId, key: Key, sentAt: Time, messageId: MessageId, answer: Answer)
    requires Inv(s) && s.mode == Up && id !in s.phases && id in s.cells && s.cells[id].state == Claimed
    requires 0 <= s.cells[id].currentStep < |s.cells[id].steps| && CurrentPayload(s.cells[id]) == VerifyStep(key)
    requires RoleOf(s.cells[id]) == VerifyRole(key)
    requires PhaseFits(s.db.requests, s.db.progress, s.cells, s.now, s.log, VerifyStep(key), VerifyRead(sentAt, messageId))
    ensures Inv(s.(log := s.log + [Verified(key, messageId, sentAt, s.now, answer)],
                   phases := s.phases[id := VerifyAnswered(answer)]))
  {
    var e := Verified(key, messageId, sentAt, s.now, answer);
    AskRespects(s.db.requests, s.db.progress, s.cells, s.now, s.log, key, sentAt, messageId, answer);
    AskEventKeepsInv(s, e);
    ResumingKeepsInv(s.(log := s.log + [e]), id, VerifyAnswered(answer));
  }

  lemma AskedStateIs(s: Sys, id: CellId, answer: Answer)
    requires CanAsk(s, id)
    ensures var key, phase, s1 := CurrentPayload(s.cells[id]).key, s.phases[id], s.(phases := s.phases - {id});
      AskedState(s, id, answer) ==
        s1.(log := s1.log + [Verified(key, phase.messageId, phase.sentAt, s1.now, answer)],
            phases := s1.phases[id := VerifyAnswered(answer)])
  {
    assert (s.phases - {id})[id := AskedState(s, id, answer).phases[id]] == AskedState(s, id, answer).phases;
  }

  lemma AskKeepsInv(s: Sys, id: CellId, answer: Answer)
    requires Inv(s) && CanAsk(s, id)
    ensures Inv(AskedState(s, id, answer))
  {
    LettingGo(s, id);
    PayloadRole(s.cells, id);
    AskedStateIs(s, id, answer);
    AskAndResume(s.(phases := s.phases - {id}), id, CurrentPayload(s.cells[id]).key,
                 s.phases[id].sentAt, s.phases[id].messageId, answer);
  }
}

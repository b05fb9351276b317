/** When a Send sequence moves on: Recovery passes only with nothing unresolved, and
    the sequence ends only with every recipient settled. */
module EmailEndings {
  import opened Basics
  import opened Cells
  import opened EmailEvents
  import opened EmailStore
  import opened EmailHandlers
  import opened EmailProtocol
  import opened EmailInvariant
  import opened EmailSteps
  import opened EmailApplying
  import opened EmailHistory
  import opened EmailOutcomes

  ghost predicate NoneOfKind(rows: Rows, token: Token, kind: Kind) {
    forall k :: k in rows && k.0 == token ==> KindOf(rows[k]) != kind
  }

  /** What a worker about to move a Send sequence on knows of the token's rows. */
  ghost predicate EndFits(rows: Rows, payload: Payload, phase: Phase) {
    && (payload.RecoveryStep? && phase.RecoveryClear? ==>
          NoneOfKind(rows, payload.token, KRecovery) && NoneOfKind(rows, payload.token, KInFlight))
    && (payload.RecoveryStep? && phase.Plain? && phase.result.Complete? ==> OnlyKind(rows, payload.token, KFresh))
    && (payload.PostStep? && phase.Plain? && phase.result.Complete? ==> OnlyKind(rows, payload.token, KSettled))
  }

  /** A worker with its cell. */
  ghost predicate At(s: Sys, o: CellId) {
    o in s.phases && o in s.cells && 0 <= s.cells[o].currentStep < |s.cells[o].steps|
  }

  ghost predicate EndsFit(s: Sys) {
    forall id :: At(s, id) ==> EndFits(s.db.progress, CurrentPayload(s.cells[id]), s.phases[id])
  }

  // ----- How rows may change under a worker -----

  /** Rows of the token keep their kind, settle, or go from waiting to fresh. */
  ghost predicate Gentle(rows: Rows, after: Rows, t: Token) {
    forall k :: k in after && k.0 == t ==>
      && k in rows
      && (KindOf(after[k]) == KindOf(rows[k]) || KindOf(after[k]) == KSettled
          || (KindOf(rows[k]) == KWaiting && KindOf(after[k]) == KFresh))
  }

  lemma GentleKeepsEnd(rows: Rows, after: Rows, payload: Payload, phase: Phase)
    requires EndFits(rows, payload, phase)
    requires payload.RecoveryStep? || payload.PostStep? ==> Gentle(rows, after, payload.token)
    ensures EndFits(after, payload, phase)
  {
  }

  function WorkToken(work: Work): Token {
    match work
    case Insert(q, _) => q.token
    case Recover(t) => t
    case Wait(t) => t
    case Absent(key) => key.0
    case Accept(key, _) => key.0
    case AcceptRecovered(key, _) => key.0
  }

  lemma {:induction false} InsertRowsElsewhere(rows: Rows, q: SendRequest, from: nat, t: Token)
    requires from <= |q.recipients| && q.token != t
    ensures SameRows(rows, InsertRows(rows, q, from), t)
    decreases |q.recipients| - from
  {
    if from < |q.recipients| {
      InsertRowsElsewhere(rows[(q.token, q.recipients[from].email) := NewRow(q.recipients[from])], q, from + 1, t);
    }
  }

  /** The rows of the token are the same. */
  ghost predicate SameRows(rows: Rows, after: Rows, t: Token) {
    forall k: Key :: k.0 == t ==> (k in after <==> k in rows) && (k in rows ==> after[k] == rows[k])
  }

  lemma WorkElsewhere(db: Database, work: Work, t: Token)
    requires WorkToken(work) != t && RunWork(db, work).Ok?
    ensures SameRows(db.progress, RunWork(db, work).value.progress, t)
  {
    if work.Insert? { InsertRowsElsewhere(db.progress, work.request, 0, t); }
  }

  lemma {:induction false} WorksElsewhere(db: Database, works: seq<Work>, t: Token)
    requires (forall i :: 0 <= i < |works| ==> WorkToken(works[i]) != t) && RunWorks(db, works).Ok?
    ensures SameRows(db.progress, RunWorks(db, works).value.progress, t)
    decreases |works|
  {
    if works != [] {
      WorkElsewhere(db, works[0], t);
      WorksElsewhere(RunWork(db, works[0]).value, works[1..], t);
    }
  }

  /** A worker's result only concerns the rows of its own token. */
  lemma ResultTokens(
    requests: Requests, rows: Rows, cells: CellMap<Payload>, now: Time, log: seq<Trace>, payload: Payload, phase: Phase,
    result: EmailResult, t: Token)
    requires PhaseFits(requests, rows, cells, now, log, payload, phase)
    requires PendingResult(payload, phase) == Some(result) && Storable(result) && PayloadToken(payload) != t
    ensures forall i :: 0 <= i < |result.works| ==> WorkToken(result.works[i]) != t
  {
  }

  /** A step of the token's own Send sequence. */
  predicate OfSequence(payload: Payload, t: Token) {
    PayloadToken(payload) == t && (payload.SetupStep? || payload.RecoveryStep? || payload.PostStep?)
  }

  /** The worker on `id`, its result, and the tables after applying it. */
  lemma ApplyIs(s: Sys, id: CellId, allocator: Allocator) returns (result: EmailResult)
    requires Inv(s) && Enabled(s, Apply(id, allocator))
    ensures PendingResult(CurrentPayload(s.cells[id]), s.phases[id]) == Some(result)
    ensures Storable(result) && RunWorks(s.db, result.works).Ok?
    ensures Perform(s, Apply(id, allocator)).db == RunWorks(s.db, result.works).value
    ensures PhaseFits(s.db.requests, s.db.progress, s.cells, s.now, s.log, CurrentPayload(s.cells[id]), s.phases[id])
  {
    result := PendingResult(CurrentPayload(s.cells[id]), s.phases[id]).value;
  }

  lemma VerdictGentle(rows: Rows, after: Rows, key: Key, answer: Answer, t: Token)
    requires Judged(rows, after, key, answer) && (key in rows ==> rows[key].submittedAt.Some? || !Unresolved(rows[key]))
    ensures Gentle(rows, after, t)
  {
  }

  lemma ApplyGentle(s: Sys, id: CellId, allocator: Allocator, t: Token)
    requires Inv(s) && Enabled(s, Apply(id, allocator)) && !OfSequence(CurrentPayload(s.cells[id]), t)
    ensures Gentle(s.db.progress, Perform(s, Apply(id, allocator)).db.progress, t)
  {
    var payload, phase := CurrentPayload(s.cells[id]), s.phases[id];
    var result := ApplyIs(s, id, allocator);
    if PayloadToken(payload) != t {
      ResultTokens(s.db.requests, s.db.progress, s.cells, s.now, s.log, payload, phase, result, t);
      WorksElsewhere(s.db, result.works, t);
    } else if phase.VerifyAnswered? {
      VerdictApplied(s, id, allocator, payload.key, phase.answer);
      VerdictAt(s.db.progress, payload.key, phase.answer);
      if payload.key in s.db.progress { assert RowSane(s.db.progress[payload.key]); }
      VerdictGentle(s.db.progress, Perform(s, Apply(id, allocator)).db.progress, payload.key, phase.answer, t);
    } else {
      assert result.works == [];
    }
  }

  lemma AcceptNowGentle(s: Sys, a: Action, t: Token)
    requires Enabled(s, a) && a.AcceptNow? && CurrentPayload(s.cells[a.id]).token != t
    ensures Gentle(s.db.progress, Perform(s, a).db.progress, t)
  {
    AcceptBestEffortKeeps(s.db.progress, CurrentPayload(s.cells[a.id]).token, s.phases[a.id].messageId,
                          s.phases[a.id].pending, 0);
  }

  lemma StatementGentle(s: Sys, a: Action, t: Token)
    requires Enabled(s, a) && (a.Webhook? || (a.Mark? && CurrentPayload(s.cells[a.id]).token != t))
    ensures Gentle(s.db.progress, Perform(s, a).db.progress, t)
  {
  }

  /** Outside its own sequence and the recovery after a crash, a token's rows move gently. */
  lemma RowsMoveGently(s: Sys, a: Action, t: Token)
    requires Inv(s) && Enabled(s, a) && !a.RecoverAll?
    requires a.Mark? || a.AcceptNow? || a.Apply? ==> !OfSequence(CurrentPayload(s.cells[a.id]), t)
    ensures Gentle(s.db.progress, Perform(s, a).db.progress, t)
  {
    if a.Apply? {
      ApplyGentle(s, a.id, a.allocator, t);
    } else if a.AcceptNow? {
      AcceptNowGentle(s, a, t);
    } else if a.Webhook? || a.Mark? {
      StatementGentle(s, a, t);
    } else {
      OthersKeepTables(s, a);
    }
  }

  // ----- The acting worker's next phase -----

  lemma ReadsEnd(s: Sys, id: CellId, move: Move)
    requires Inv(s) && EndsFit(s) && Working(s, id) && MoveEnabled(s, id, move)
    ensures EndFits(s.db.progress, CurrentPayload(s.cells[id]), NextPhase(s, id, move))
  {
    match move
    case ReadNoCandidates => NoCandidatesEnd(s, id);
    case ReadWaiting => ReadWaitingEnd(s, id);
    case ReadPending(pending) => ReadPendingEnd(s, id, pending);
    case _ => OtherReadsEnd(s, id, move);
  }

  lemma ReadWaitingEnd(s: Sys, id: CellId)
    requires EndsFit(s) && Working(s, id) && MoveEnabled(s, id, ReadWaiting)
    ensures EndFits(s.db.progress, CurrentPayload(s.cells[id]), NextPhase(s, id, ReadWaiting))
  {
    assert At(s, id);
    WaitingEnd(s.db.progress, CurrentPayload(s.cells[id]).token);
  }

  lemma OtherReadsEnd(s: Sys, id: CellId, move: Move)
    requires Working(s, id) && MoveEnabled(s, id, move)
    requires !move.ReadNoCandidates? && !move.ReadWaiting? && !move.ReadPending?
    ensures EndFits(s.db.progress, CurrentPayload(s.cells[id]), NextPhase(s, id, move))
  {
  }

  lemma ReadPendingEnd(s: Sys, id: CellId, pending: seq<Recipient>)
    requires PhasesFit(s.db.requests, s.db.progress, s.cells, s.phases, s.now, s.log)
    requires Working(s, id) && MoveEnabled(s, id, ReadPending(pending))
    ensures EndFits(s.db.progress, CurrentPayload(s.cells[id]), NextPhase(s, id, ReadPending(pending)))
  {
    if pending == [] { NothingPendingEnd(s.db.progress, CurrentPayload(s.cells[id]).token); }
  }

  lemma NoCandidatesEnd(s: Sys, id: CellId)
    requires Inv(s) && Working(s, id) && MoveEnabled(s, id, ReadNoCandidates)
    ensures EndFits(s.db.progress, CurrentPayload(s.cells[id]), RecoveryClear)
  {
    var rows, t := s.db.progress, CurrentPayload(s.cells[id]).token;
    PayloadRole(s.cells, id);
    forall k | k in rows && k.0 == t ensures KindOf(rows[k]) != KRecovery && KindOf(rows[k]) != KInFlight {
      assert rows[k].state == Recovery ==> k.1 in InState(rows, t, Recovery);
      assert s.senders[t] == id;
    }
  }

  lemma WaitingEnd(rows: Rows, t: Token)
    requires NoneOfKind(rows, t, KRecovery) && NoneOfKind(rows, t, KInFlight)
    ensures InState(rows, t, RecoveryWaiting) == {} ==> OnlyKind(rows, t, KFresh)
  {
    forall k | k in rows && k.0 == t && KindOf(rows[k]) == KWaiting ensures k.1 in InState(rows, t, RecoveryWaiting) {
    }
  }

  lemma NothingPendingEnd(rows: Rows, t: Token)
    requires OnlyKind(rows, t, KFresh) && Lists([], InState(rows, t, Pending))
    ensures OnlyKind(rows, t, KSettled)
  {
    forall k | k in rows && k.0 == t ensures KindOf(rows[k]) == KSettled {
      if rows[k].state == Pending { assert k.1 in InState(rows, t, Pending); }
    }
  }

  // ----- Every action keeps it -----

  /** The action is made by the worker on cell `o`. */
  predicate ActsOn(a: Action, o: CellId) {
    match a
    case ClaimCell(id) => id == o
    case Fail(id) => id == o
    case Step(id, _) => id == o
    case Mark(id) => id == o
    case SendMail(id, _) => id == o
    case AcceptNow(id) => id == o
    case SendBestEffort(id) => id == o
    case Ask(id, _) => id == o
    case Apply(id, _) => id == o
    case _ => false
  }

  lemma ApplyLeavesOthers(s: Sys, id: CellId, allocator: Allocator, o: CellId)
    requires Inv(s) && Enabled(s, Apply(id, allocator)) && o in s.cells && o != id
    ensures o in Perform(s, Apply(id, allocator)).cells && Perform(s, Apply(id, allocator)).cells[o] == s.cells[o]
  {
    var result := PendingResult(CurrentPayload(s.cells[id]), s.phases[id]).value;
    ApplyResultEffect(s.cells, s.cells[id], result, true, allocator, s.now);
  }

  lemma WorkersHaveCells(s: Sys, o: CellId)
    requires Inv(s) && o in s.phases
    ensures At(s, o)
  {
  }

  lemma ApplyStays(s: Sys, a: Action, next: Sys, o: CellId)
    requires Inv(s) && Enabled(s, a) && next == Perform(s, a) && a.Apply? && o in next.phases && o != a.id
    ensures At(s, o) && At(next, o) && next.phases[o] == s.phases[o] && next.cells[o] == s.cells[o]
  {
    WorkersHaveCells(s, o);
    ApplyLeavesOthers(s, a.id, a.allocator, o);
  }

  lemma OtherActionStays(s: Sys, a: Action, next: Sys, o: CellId)
    requires Enabled(s, a) && next == Perform(s, a) && !a.Apply? && o in next.phases && !ActsOn(a, o)
    requires (o in s.phases ==> At(s, o)) && (s.mode != Up ==> s.phases == map[])
    ensures At(s, o) && At(next, o) && next.phases[o] == s.phases[o] && next.cells[o] == s.cells[o] && !a.RecoverAll?
  {
  }

  /** Another worker and its cell are left as they are. */
  lemma OthersStay(s: Sys, a: Action, next: Sys, o: CellId)
    requires Inv(s) && Enabled(s, a) && next == Perform(s, a) && o in next.phases && !ActsOn(a, o)
    ensures At(s, o) && At(next, o) && next.phases[o] == s.phases[o] && next.cells[o] == s.cells[o] && !a.RecoverAll?
  {
    if a.Apply? {
      ApplyStays(s, a, next, o);
    } else {
      if o in s.phases { WorkersHaveCells(s, o); }
      OtherActionStays(s, a, next, o);
    }
  }

  /** No other worker runs the sequence that the worker on `id` runs. */
  lemma NotTheSame(cells: CellMap<Payload>, id: CellId, o: CellId)
    requires CellsSane(cells) && id in cells && o in cells && id != o
    requires 0 <= cells[id].currentStep < |cells[id].steps| && 0 <= cells[o].currentStep < |cells[o].steps|
    ensures var payload := CurrentPayload(cells[o]);
      payload.RecoveryStep? || payload.PostStep? ==> !OfSequence(CurrentPayload(cells[id]), payload.token)
  {
    PayloadRole(cells, o);
    PayloadRole(cells, id);
  }

  lemma NoRival(s: Sys, a: Action, o: CellId, t: Token)
    requires Inv(s) && Enabled(s, a) && At(s, o) && !ActsOn(a, o)
    requires CurrentPayload(s.cells[o]) == RecoveryStep(t) || CurrentPayload(s.cells[o]) == PostStep(t)
    ensures a.Mark? || a.AcceptNow? || a.Apply? ==> !OfSequence(CurrentPayload(s.cells[a.id]), t)
  {
    if a.Mark? || a.AcceptNow? || a.Apply? { NotTheSame(s.cells, a.id, o); }
  }

  lemma OthersKeepEnd(s: Sys, a: Action, next: Sys, o: CellId)
    requires Inv(s) && EndsFit(s) && Enabled(s, a) && next == Perform(s, a) && At(s, o) && !ActsOn(a, o) && !a.RecoverAll?
    ensures EndFits(next.db.progress, CurrentPayload(s.cells[o]), s.phases[o])
  {
    var payload := CurrentPayload(s.cells[o]);
    if payload.RecoveryStep? || payload.PostStep? {
      NoRival(s, a, o, payload.token);
      RowsMoveGently(s, a, payload.token);
    }
    GentleKeepsEnd(s.db.progress, next.db.progress, CurrentPayload(s.cells[o]), s.phases[o]);
  }

  /** A best-effort Send ends its worker's part with everything settled. */
  lemma SentEnd(s: Sys, o: CellId)
    requires Inv(s) && CanSendBestEffort(s, o)
    ensures EndFits(s.db.progress, CurrentPayload(s.cells[o]), Plain(Complete([], [])))
  {
  }

  /** The acting worker's own next phase, if it has one. */
  lemma ActorKeepsEnd(s: Sys, a: Action, next: Sys, o: CellId)
    requires Inv(s) && EndsFit(s) && Enabled(s, a) && next == Perform(s, a) && ActsOn(a, o) && At(next, o)
    ensures EndFits(next.db.progress, CurrentPayload(next.cells[o]), next.phases[o])
  {
    if a.Step? { ReadsEnd(s, o, a.move); }
    if a.SendBestEffort? { SentEnd(s, o); }
  }

  lemma ActionKeepsEnds(s: Sys, a: Action)
    requires Inv(s) && EndsFit(s) && Enabled(s, a)
    ensures EndsFit(Perform(s, a))
  {
    var next := Perform(s, a);
    forall o | At(next, o) ensures EndFits(next.db.progress, CurrentPayload(next.cells[o]), next.phases[o]) {
      if ActsOn(a, o) {
        ActorKeepsEnd(s, a, next, o);
      } else {
        OthersStay(s, a, next, o);
        OthersKeepEnd(s, a, next, o);
      }
    }
  }

  lemma {:induction false} RunKeepsEnds(s: Sys, actions: seq<Action>)
    requires Inv(s) && EndsFit(s) && IsRun(s, actions)
    ensures Inv(After(s, actions)) && EndsFit(After(s, actions))
    decreases |actions|
  {
    if actions != [] {
      ActionKeepsInv(s, actions[0]);
      ActionKeepsEnds(s, actions[0]);
      RunKeepsEnds(Perform(s, actions[0]), actions[1..]);
    }
  }

  // ----- The theorems -----

  /** Every recipient of the token is accepted, reported on or refused. */
  ghost predicate AllSettled(rows: Rows, t: Token) {
    forall k :: k in rows && k.0 == t ==> rows[k].state != Pending && !Unresolved(rows[k])
  }

  /** No recipient of the token has an unknown outcome. */
  ghost predicate AllResolved(rows: Rows, t: Token) {
    forall k :: k in rows && k.0 == t ==> !Unresolved(rows[k]) && (rows[k].state == Pending ==> rows[k].submittedAt.None?)
  }

  /** The step of the token's Send sequence, when it is live. */
  function StepAt(s: Sys, t: Token): Option<int> {
    if t in s.senders && s.senders[t] in s.cells then Some(s.cells[s.senders[t]].currentStep) else None
  }

  /** Actions other than applying results leave live sequences at their step. */
  lemma OtherActionsHold(s: Sys, a: Action, next: Sys, t: Token)
    requires Enabled(s, a) && next == Perform(s, a) && !a.Apply? && t in s.senders && s.senders[t] in s.cells
    ensures t in next.senders && StepAt(next, t) == StepAt(s, t)
  {
  }

  lemma OtherResultsHold(s: Sys, a: Action, next: Sys, t: Token)
    requires Inv(s) && Enabled(s, a) && next == Perform(s, a) && a.Apply? && t in s.senders && a.id != s.senders[t]
    ensures t in next.senders && StepAt(next, t) == StepAt(s, t)
  {
    ApplyLeavesOthers(s, a.id, a.allocator, s.senders[t]);
  }

  /** Only applying a result of the sequence itself moves it on or ends it. */
  lemma MovedByItself(s: Sys, a: Action, next: Sys, t: Token)
    requires Inv(s) && Enabled(s, a) && next == Perform(s, a) && t in s.senders
    requires t !in next.senders || StepAt(next, t) != StepAt(s, t)
    ensures a.Apply? && a.id == s.senders[t]
  {
    if !a.Apply? {
      OtherActionsHold(s, a, next, t);
    } else if a.id != s.senders[t] {
      OtherResultsHold(s, a, next, t);
    }
  }

  lemma SequencePayload(s: Sys, id: CellId, t: Token)
    requires Inv(s) && Working(s, id) && t in s.senders && s.senders[t] == id
    ensures At(s, id) && OfSequence(CurrentPayload(s.cells[id]), t)
    ensures s.cells[id].currentStep == 1 ==> CurrentPayload(s.cells[id]) == RecoveryStep(t)
  {
    CellOfSequence(s.cells, s.senders, id, t);
  }

  lemma CellOfSequence(cells: CellMap<Payload>, senders: map<Token, CellId>, id: CellId, t: Token)
    requires CellsSane(cells) && SendersMatch(cells, senders) && t in senders && senders[t] == id
    requires id in cells && 0 <= cells[id].currentStep < |cells[id].steps|
    ensures OfSequence(CurrentPayload(cells[id]), t)
    ensures cells[id].currentStep == 1 ==> CurrentPayload(cells[id]) == RecoveryStep(t)
  {
    assert Shaped(cells[id]);
  }

  /** What the last step of a sequence leaves when it completes. */
  lemma PostEndsSettled(s: Sys, a: Action, next: Sys, t: Token)
    requires Inv(s) && EndsFit(s) && Enabled(s, a) && next == Perform(s, a) && a.Apply? && At(s, a.id)
    requires CurrentPayload(s.cells[a.id]) == PostStep(t) && a.id !in next.cells
    ensures AllSettled(next.db.progress, t)
  {
    PostCompletes(s, a, next, t);
    if s.phases[a.id].PostAnswered? {
      AnsweredSettled(s, a.id, a.allocator, t, s.phases[a.id].pending, s.phases[a.id].sendAnswer.ids);
    } else {
      assert EndFits(s.db.progress, PostStep(t), s.phases[a.id]);
      SettledAll(s.db.progress, t);
    }
  }

  lemma PostCompletes(s: Sys, a: Action, next: Sys, t: Token)
    requires Inv(s) && Enabled(s, a) && next == Perform(s, a) && a.Apply? && At(s, a.id)
    requires CurrentPayload(s.cells[a.id]) == PostStep(t) && a.id !in next.cells
    ensures var phase := s.phases[a.id];
      || (phase.PostAnswered? && Usable(phase.sendAnswer, phase.pending))
      || (phase.Plain? && phase.result.Complete? && next.db == s.db)
  {
    var result := ApplyIs(s, a.id, a.allocator);
    ApplyResultEffect(s.cells, s.cells[a.id], result, true, a.allocator, s.now);
  }

  lemma SettledAll(rows: Rows, t: Token)
    requires OnlyKind(rows, t, KSettled)
    ensures AllSettled(rows, t)
  {
    forall k | k in rows && k.0 == t ensures KindOf(rows[k]) == KSettled {}
  }

  lemma AnsweredSettled(s: Sys, id: CellId, allocator: Allocator, t: Token, pending: seq<Recipient>, ids: seq<Pmuid>)
    requires Inv(s) && PostHasAnswer(s, id, allocator, t, pending, SendReturned(ids)) && Usable(SendReturned(ids), pending)
    ensures AllSettled(Perform(s, Apply(id, allocator)).db.progress, t)
  {
    SendAnswerStored(s, id, allocator, t, pending, ids);
    AnsweredInFlight(s, id, t, pending, SendReturned(ids));
    InFlightPosted(s.db.progress, Perform(s, Apply(id, allocator)).db.progress, t, pending, ids);
  }

  lemma InFlightPosted(rows: Rows, after: Rows, t: Token, pending: seq<Recipient>, ids: seq<Pmuid>)
    requires |ids| == |pending| && Posted(rows, after, t, pending, ids) && OnlyKind(rows, t, KInFlight)
    ensures AllSettled(after, t)
  {
    forall k | k in after && k.0 == t ensures !Unresolved(after[k]) {
      if k.1 in pending {
        var i :| 0 <= i < |pending| && pending[i] == k.1;
        assert k == (t, pending[i]);
      }
    }
  }

  /** In every run a Send sequence ends only with every recipient of its token
      settled: none is left pending or with an unknown outcome. */
  lemma SequenceEndsSettled(start: Time, actions: seq<Action>, a: Action, t: Token)
    requires IsRun(Initial(start), actions) && Enabled(After(Initial(start), actions), a)
    requires t in After(Initial(start), actions).senders && t !in Perform(After(Initial(start), actions), a).senders
    ensures AllSettled(Perform(After(Initial(start), actions), a).db.progress, t)
  {
    var s := After(Initial(start), actions);
    InitialInv(start);
    RunKeepsEnds(Initial(start), actions);
    EndsSettled(s, a, Perform(s, a), t);
  }

  lemma EndsSettled(s: Sys, a: Action, next: Sys, t: Token)
    requires Inv(s) && EndsFit(s) && Enabled(s, a) && next == Perform(s, a) && t in s.senders && t !in next.senders
    ensures AllSettled(next.db.progress, t)
  {
    MovedByItself(s, a, next, t);
    SequencePayload(s, a.id, t);
    OnlyPostEnds(s, a, next, t);
    PostEndsSettled(s, a, next, t);
  }

  lemma OnlyPostEnds(s: Sys, a: Action, next: Sys, t: Token)
    requires Inv(s) && Enabled(s, a) && next == Perform(s, a) && t in s.senders && t !in next.senders
    requires a.Apply? && a.id == s.senders[t] && At(s, a.id) && OfSequence(CurrentPayload(s.cells[a.id]), t)
    ensures CurrentPayload(s.cells[a.id]) == PostStep(t) && a.id !in next.cells
  {
    var result := ApplyIs(s, a.id, a.allocator);
    ApplyResultEffect(s.cells, s.cells[a.id], result, true, a.allocator, s.now);
    PayloadRole(s.cells, a.id);
  }

  /** In every run Recovery passes only with no outcome of its token unknown. */
  lemma RecoveryPassesResolved(start: Time, actions: seq<Action>, a: Action, t: Token)
    requires IsRun(Initial(start), actions) && Enabled(After(Initial(start), actions), a)
    requires StepAt(After(Initial(start), actions), t) == Some(1)
    requires StepAt(Perform(After(Initial(start), actions), a), t) == Some(2)
    ensures AllResolved(Perform(After(Initial(start), actions), a).db.progress, t)
  {
    var s := After(Initial(start), actions);
    InitialInv(start);
    RunKeepsEnds(Initial(start), actions);
    PassesResolved(s, a, Perform(s, a), t);
  }

  lemma PassesResolved(s: Sys, a: Action, next: Sys, t: Token)
    requires Inv(s) && EndsFit(s) && Enabled(s, a) && next == Perform(s, a)
    requires StepAt(s, t) == Some(1) && StepAt(next, t) == Some(2)
    ensures AllResolved(next.db.progress, t)
  {
    MovedByItself(s, a, next, t);
    SequencePayload(s, a.id, t);
    RecoveryEndsResolved(s, a, next, t);
  }

  /** Recovery moves on only with a plain completion, which changes no row. */
  lemma RecoveryCompletes(s: Sys, a: Action, next: Sys, t: Token)
    requires Inv(s) && Enabled(s, a) && next == Perform(s, a) && a.Apply? && At(s, a.id)
    requires CurrentPayload(s.cells[a.id]) == RecoveryStep(t)
    requires a.id in next.cells && next.cells[a.id].currentStep == 2 && s.cells[a.id].currentStep == 1
    ensures s.phases[a.id].Plain? && s.phases[a.id].result.Complete? && next.db == s.db
  {
    var result := ApplyIs(s, a.id, a.allocator);
    ApplyResultEffect(s.cells, s.cells[a.id], result, true, a.allocator, s.now);
  }

  lemma RecoveryEndsResolved(s: Sys, a: Action, next: Sys, t: Token)
    requires Inv(s) && EndsFit(s) && Enabled(s, a) && next == Perform(s, a) && a.Apply? && At(s, a.id)
    requires CurrentPayload(s.cells[a.id]) == RecoveryStep(t)
    requires a.id in next.cells && next.cells[a.id].currentStep == 2 && s.cells[a.id].currentStep == 1
    ensures AllResolved(next.db.progress, t)
  {
    RecoveryCompletes(s, a, next, t);
    FreshIsResolved(s.db.progress, CurrentPayload(s.cells[a.id]), s.phases[a.id]);
  }

  lemma FreshIsResolved(rows: Rows, payload: Payload, phase: Phase)
    requires EndFits(rows, payload, phase) && payload.RecoveryStep? && phase.Plain? && phase.result.Complete?
    ensures AllResolved(rows, payload.token)
  {
    forall k | k in rows && k.0 == payload.token ensures KindOf(rows[k]) == KFresh || KindOf(rows[k]) == KSettled {
    }
  }
}

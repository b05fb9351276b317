/** Where stored provider identifiers come from: each was given for that very
    recipient by a Send, by a verification, or made up by a best-effort acceptance. */
module EmailProvenance {
  import opened Basics
  import opened Cells
  import opened EmailStore
  import opened EmailHandlers
  import opened EmailProtocol
  import opened EmailInvariant
  import opened EmailApplying
  import opened EmailHistory
  import opened EmailEndings

  /** The action brings up the identifier for the recipient: the provider returns it
      at the recipient's position, a verification finds it, or it is synthetic. */
  ghost predicate Issues(s: Sys, a: Action, k: Key, pmuid: Pmuid)
    requires Enabled(s, a)
  {
    match a
    case SendMail(id, answer) =>
      var token, pending := CurrentPayload(s.cells[id]).token, s.phases[id].pending;
      answer.SendReturned? &&
      exists i :: 0 <= i < |pending| && i < |answer.ids| && k == (token, pending[i]) && pmuid == answer.ids[i]
    case Ask(id, answer) => k == CurrentPayload(s.cells[id]).key && answer == Found(pmuid)
    case AcceptNow(id) =>
      var token, phase := CurrentPayload(s.cells[id]).token, s.phases[id];
      exists i :: 0 <= i < |phase.pending| && k == (token, phase.pending[i]) && pmuid == SuppressedId(phase.messageId, i)
    case _ => false
  }

  /** Some action of the run does. */
  ghost predicate IssuedIn(s: Sys, actions: seq<Action>, k: Key, pmuid: Pmuid)
    requires IsRun(s, actions)
    decreases |actions|
  {
    actions != [] &&
    (Issues(s, actions[0], k, pmuid) || IssuedIn(Perform(s, actions[0]), actions[1..], k, pmuid))
  }

  type Known = iset<(Key, Pmuid)>

  /** The worker's answer, if it has one, names known identifiers only. */
  ghost predicate AnswerKnown(known: Known, payload: Payload, phase: Phase) {
    match phase
    case PostAnswered(pending, SendReturned(ids)) =>
      payload.PostStep? ==>
        forall i :: 0 <= i < |pending| && i < |ids| ==> ((payload.token, pending[i]), ids[i]) in known
    case VerifyAnswered(Found(pmuid)) => payload.VerifyStep? ==> (payload.key, pmuid) in known
    case _ => true
  }

  ghost predicate RowsKnown(known: Known, rows: Rows) {
    forall k :: k in rows && rows[k].pmuid.Some? ==> (k, rows[k].pmuid.value) in known
  }

  ghost predicate AllKnown(known: Known, s: Sys) {
    RowsKnown(known, s.db.progress)
    && forall o :: At(s, o) ==> AnswerKnown(known, CurrentPayload(s.cells[o]), s.phases[o])
  }

  // ----- Rows -----

  lemma InsertKnown(known: Known, rows: Rows, q: SendRequest)
    requires RowsKnown(known, rows) && DistinctRecipients(q)
    ensures RowsKnown(known, InsertRows(rows, q, 0))
  {
    InsertRowsContents(rows, q, 0);
    var after := InsertRows(rows, q, 0);
    forall k | k in after && Names(q, 0, k) ensures after[k].pmuid.None? {
      var i :| 0 <= i < |q.recipients| && q.recipients[i].email == k.1;
      assert k == (q.token, q.recipients[i].email);
    }
  }

  /** The work only names known identifiers. */
  ghost predicate WorkKnown(known: Known, work: Work) {
    match work
    case Insert(q, _) => DistinctRecipients(q)
    case Accept(key, pmuid) => (key, pmuid) in known
    case AcceptRecovered(key, pmuid) => (key, pmuid) in known
    case _ => true
  }

  lemma WorkKeepsKnown(known: Known, db: Database, work: Work)
    requires RowsKnown(known, db.progress) && WorkKnown(known, work) && RunWork(db, work).Ok?
    ensures RowsKnown(known, RunWork(db, work).value.progress)
  {
    if work.Insert? { InsertKnown(known, db.progress, work.request); }
  }

  lemma {:induction false} WorksKeepKnown(known: Known, db: Database, works: seq<Work>)
    requires RowsKnown(known, db.progress) && RunWorks(db, works).Ok?
    requires forall i :: 0 <= i < |works| ==> WorkKnown(known, works[i])
    ensures RowsKnown(known, RunWorks(db, works).value.progress)
    decreases |works|
  {
    if works != [] {
      WorkKeepsKnown(known, db, works[0]);
      WorksKeepKnown(known, RunWork(db, works[0]).value, works[1..]);
    }
  }

  lemma ResultKnown(
    known: Known, requests: Requests, rows: Rows, cells: CellMap<Payload>, now: Time, log: seq<Trace>, payload: Payload,
    phase: Phase, result: EmailResult)
    requires PhaseFits(requests, rows, cells, now, log, payload, phase) && AnswerKnown(known, payload, phase)
    requires PendingResult(payload, phase) == Some(result) && Storable(result)
    ensures forall i :: 0 <= i < |result.works| ==> WorkKnown(known, result.works[i])
  {
  }

  lemma ApplyKeepsKnown(known: Known, s: Sys, id: CellId, allocator: Allocator)
    requires Inv(s) && AllKnown(known, s) && Enabled(s, Apply(id, allocator))
    ensures RowsKnown(known, Perform(s, Apply(id, allocator)).db.progress)
  {
    var result := ApplyIs(s, id, allocator);
    assert At(s, id);
    ResultKnown(known, s.db.requests, s.db.progress, s.cells, s.now, s.log, CurrentPayload(s.cells[id]), s.phases[id], result);
    WorksKeepKnown(known, s.db, result.works);
  }

  lemma BatchKnown(known: Known, rows: Rows, t: Token, messageId: MessageId, pending: seq<Recipient>)
    requires RowsKnown(known, rows) && AcceptBestEffort(rows, t, messageId, pending, 0).Some?
    requires forall i :: 0 <= i < |pending| ==> ((t, pending[i]), SuppressedId(messageId, i)) in known
    ensures RowsKnown(known, AcceptBestEffort(rows, t, messageId, pending, 0).value)
  {
    AcceptBestEffortContents(rows, t, messageId, pending, 0);
    var after := AcceptBestEffort(rows, t, messageId, pending, 0).value;
    forall k | k in after && after[k].pmuid.Some? ensures (k, after[k].pmuid.value) in known {
      if ListedFrom(t, pending, 0, k) {
        var i :| 0 <= i < |pending| && pending[i] == k.1;
        assert k == (t, pending[i]);
      }
    }
  }

  // ----- Actions -----

  ghost function Learnt(known: Known, s: Sys, a: Action): Known
    requires Enabled(s, a)
  {
    iset kp: (Key, Pmuid) | kp in known || Issues(s, a, kp.0, kp.1)
  }

  lemma RowsStayKnown(known: Known, s: Sys, a: Action)
    requires Inv(s) && AllKnown(known, s) && Enabled(s, a)
    ensures RowsKnown(Learnt(known, s, a), Perform(s, a).db.progress)
  {
    if a.Apply? {
      ApplyKeepsKnown(known, s, a.id, a.allocator);
    } else if a.AcceptNow? {
      AcceptNowKnown(known, s, a);
    } else if a.Webhook? || a.Mark? || a.RecoverAll? {
      StatementKnown(known, s, a);
    } else {
      OthersKeepTables(s, a);
    }
  }

  lemma AcceptNowKnown(known: Known, s: Sys, a: Action)
    requires RowsKnown(known, s.db.progress) && Enabled(s, a) && a.AcceptNow?
    ensures RowsKnown(Learnt(known, s, a), Perform(s, a).db.progress)
  {
    var token, phase, more := CurrentPayload(s.cells[a.id]).token, s.phases[a.id], Learnt(known, s, a);
    forall i | 0 <= i < |phase.pending| ensures ((token, phase.pending[i]), SuppressedId(phase.messageId, i)) in more {
      assert Issues(s, a, (token, phase.pending[i]), SuppressedId(phase.messageId, i));
    }
    BatchKnown(more, s.db.progress, token, phase.messageId, phase.pending);
  }

  lemma StatementKnown(known: Known, s: Sys, a: Action)
    requires RowsKnown(known, s.db.progress) && Enabled(s, a) && (a.Webhook? || a.Mark? || a.RecoverAll?)
    ensures RowsKnown(known, Perform(s, a).db.progress)
  {
  }

  lemma ActorKnown(known: Known, s: Sys, a: Action, next: Sys, o: CellId)
    requires Enabled(s, a) && next == Perform(s, a) && ActsOn(a, o) && At(next, o)
    ensures AnswerKnown(Learnt(known, s, a), CurrentPayload(next.cells[o]), next.phases[o])
  {
  }

  lemma ActionKeepsKnown(known: Known, s: Sys, a: Action)
    requires Inv(s) && AllKnown(known, s) && Enabled(s, a)
    ensures AllKnown(Learnt(known, s, a), Perform(s, a))
  {
    var next, more := Perform(s, a), Learnt(known, s, a);
    RowsStayKnown(known, s, a);
    forall o | At(next, o) ensures AnswerKnown(more, CurrentPayload(next.cells[o]), next.phases[o]) {
      if ActsOn(a, o) {
        ActorKnown(known, s, a, next, o);
      } else {
        OthersStay(s, a, next, o);
      }
    }
  }

  lemma {:induction false} RunKnown(known: Known, s: Sys, actions: seq<Action>, k: Key)
    requires Inv(s) && AllKnown(known, s) && IsRun(s, actions)
    requires k in After(s, actions).db.progress && After(s, actions).db.progress[k].pmuid.Some?
    ensures var pmuid := After(s, actions).db.progress[k].pmuid.value;
      (k, pmuid) in known || IssuedIn(s, actions, k, pmuid)
    decreases |actions|
  {
    if actions != [] {
      ActionKeepsInv(s, actions[0]);
      ActionKeepsKnown(known, s, actions[0]);
      RunKnown(Learnt(known, s, actions[0]), Perform(s, actions[0]), actions[1..], k);
    }
  }

  /** In every run each stored provider identifier was issued for that very recipient. */
  lemma EveryIdWasIssued(start: Time, actions: seq<Action>, k: Key)
    requires IsRun(Initial(start), actions)
    requires var rows := After(Initial(start), actions).db.progress; k in rows && rows[k].pmuid.Some?
    ensures IssuedIn(Initial(start), actions, k, After(Initial(start), actions).db.progress[k].pmuid.value)
  {
    InitialInv(start);
    RunKnown(iset{}, Initial(start), actions, k);
  }
}

/** The guarantees are not empty: a concrete run in which a recipient is submitted
    twice, after the first outcome stayed unknown and a verification found nothing. */
module EmailWitness {
  import opened Basics
  import opened Cells
  import opened EmailEvents
  import opened EmailStore
  import opened EmailHandlers
  import opened EmailProtocol
  import opened EmailInvariant
  import opened EmailApplying

  // ----- Reachable states -----

  ghost predicate Reachable(s: Sys) {
    exists start, actions :: IsRun(Initial(start), actions) && After(Initial(start), actions) == s
  }

  lemma {:induction false} RunExtends(s: Sys, actions: seq<Action>, a: Action)
    requires IsRun(s, actions) && Enabled(After(s, actions), a)
    ensures IsRun(s, actions + [a]) && After(s, actions + [a]) == Perform(After(s, actions), a)
    decreases |actions|
  {
    if actions == [] {
      assert (actions + [a])[1..] == [];
    } else {
      RunExtends(Perform(s, actions[0]), actions[1..], a);
      assert (actions + [a])[1..] == actions[1..] + [a];
    }
  }

  lemma Onward(s: Sys, a: Action)
    requires Reachable(s) && Enabled(s, a)
    ensures Reachable(Perform(s, a))
  {
    var start, actions :| IsRun(Initial(start), actions) && After(Initial(start), actions) == s;
    RunExtends(Initial(start), actions, a);
  }

  lemma ApplyOnward(s: Sys, id: CellId, result: EmailResult, allocator: Allocator)
    requires Reachable(s) && Applying(s, id, result, allocator)
    ensures Reachable(Applied(s, id, result, allocator))
  {
    Onward(s, Apply(id, allocator));
  }

  lemma MarkOnward(s: Sys, id: CellId)
    requires Reachable(s) && CanMark(s, id)
    ensures Reachable(MarkedState(s, id))
  {
    Onward(s, Mark(id));
  }

  // ----- One request with one recipient -----

  const TOKEN: Token := "t"
  const SENDER: CellId := "s"
  const MESSAGE: MessageId := "m"
  const WHO: Recipient := "r"

  function TheRequest(): SendRequest {
    SendRequest(TOKEN, Content("", "", "", "", "", "", "", ""), [SendRecipient("", WHO, "", "")])
  }

  function RowIn(state: RowState, submittedAt: Option<Time>): Row { Row("", "", state, submittedAt, None) }

  function Db(row: Row): Database {
    Database(map[TOKEN := StoredRequest(MESSAGE, TheRequest().content)], map[(TOKEN, WHO) := row], map[], [])
  }

  function Sender(step: int, state: CellState, notBefore: Option<Time>): Cell<Payload> {
    Cell(SENDER, SendSteps(TheRequest()), step, state, notBefore)
  }

  /** Only the Send sequence is live. */
  function Alone(db: Database, cell: Cell<Payload>, phases: map<CellId, Phase>, now: Time, log: seq<Trace>): Sys {
    Sys(db, map[SENDER := cell], map[TOKEN := SENDER], phases, Up, now, log)
  }

  function NoIds(): Allocator { (n: nat) => None }

  lemma Claims(db: Database, step: int, notBefore: Option<Time>, now: Time, log: seq<Trace>)
    requires Reachable(Alone(db, Sender(step, Ready, notBefore), map[], now, log))
    requires notBefore.Some? ==> notBefore.value <= now
    ensures Reachable(Alone(db, Sender(step, Claimed, notBefore), map[SENDER := Begun], now, log))
  {
    var s := Alone(db, Sender(step, Ready, notBefore), map[], now, log);
    Onward(s, ClaimCell(SENDER));
    assert Perform(s, ClaimCell(SENDER)) == Alone(db, Sender(step, Claimed, notBefore), map[SENDER := Begun], now, log);
  }

  lemma StartsEmpty()
    ensures Reachable(Alone(Database(map[], map[], map[], []), Sender(0, Ready, None), map[], 0, []))
  {
    var s0 := Initial(0);
    assert IsRun(s0, []) && After(s0, []) == s0;
    Onward(s0, RecoverAll);
    var s1 := Perform(s0, RecoverAll);
    assert s1 == s0.(mode := Recovered);
    Onward(s1, Start);
    var s2 := Perform(s1, Start);
    assert s2 == s0.(mode := Up);
    Onward(s2, Submit(SENDER, TheRequest()));
    assert Perform(s2, Submit(SENDER, TheRequest()))
      == Alone(Database(map[], map[], map[], []), Sender(0, Ready, None), map[], 0, []);
  }

  function StepPayload(step: int): Payload
    requires 0 <= step < 3
  {
    if step == 0 then SetupStep(TheRequest()) else if step == 1 then RecoveryStep(TOKEN) else PostStep(TOKEN)
  }

  function Working(db: Database, step: int, notBefore: Option<Time>, phase: Phase, now: Time, log: seq<Trace>): Sys {
    Alone(db, Sender(step, Claimed, notBefore), map[SENDER := phase], now, log)
  }

  lemma WorkerIs(db: Database, step: int, notBefore: Option<Time>, phase: Phase, now: Time, log: seq<Trace>)
    requires 0 <= step < 3
    ensures var s := Working(db, step, notBefore, phase, now, log);
      && EmailProtocol.Working(s, SENDER) && s.phases[SENDER] == phase && s.cells[SENDER].id == SENDER
      && CurrentPayload(s.cells[SENDER]) == StepPayload(step)
  {
  }

  lemma Moves(
    db: Database, step: int, notBefore: Option<Time>, phase: Phase, now: Time, log: seq<Trace>, move: Move, next: Phase)
    requires Reachable(Working(db, step, notBefore, phase, now, log)) && 0 <= step < 3
    requires EmailProtocol.Working(Working(db, step, notBefore, phase, now, log), SENDER)
    requires MoveEnabled(Working(db, step, notBefore, phase, now, log), SENDER, move)
    requires NextPhase(Working(db, step, notBefore, phase, now, log), SENDER, move) == next
    ensures Reachable(Working(db, step, notBefore, next, now, log))
  {
    var s := Working(db, step, notBefore, phase, now, log);
    Onward(s, Step(SENDER, move));
    assert Perform(s, Step(SENDER, move)).phases == map[SENDER := next];
  }

  /** The Send cell after a result that does not end it. */
  function Resumed(step: int, notBefore: Option<Time>, result: EmailResult, now: Time): Cell<Payload>
    requires result.Complete? || result.Retry? || result.RetrySequence?
  {
    match result
    case Complete(_, _) => Sender(step + 1, Ready, notBefore)
    case Retry(at, _, _) => Sender(step, Ready, at)
    case RetrySequence(delay, _, _) => Sender(0, Ready, Some(now + delay))
  }

  lemma ResumedIs(db: Database, step: int, notBefore: Option<Time>, phase: Phase, now: Time, log: seq<Trace>, result: EmailResult)
    requires (result.Complete? && step < 2) || result.Retry? || result.RetrySequence?
    ensures Finished(Working(db, step, notBefore, phase, now, log).(phases := map[]), SENDER, result)
      == Alone(db, Resumed(step, notBefore, result, now), map[], now, log)
  {
    var s := Working(db, step, notBefore, phase, now, log);
    var settled := Settle(s.cells, s.cells[SENDER], result, now);
    assert settled == map[SENDER := Resumed(step, notBefore, result, now)];
    assert SendersAfter(s.senders, settled) == s.senders;
  }

  lemma Applies(
    db: Database, step: int, notBefore: Option<Time>, phase: Phase, now: Time, log: seq<Trace>, result: EmailResult,
    after: Database)
    requires Reachable(Working(db, step, notBefore, phase, now, log)) && 0 <= step < 3
    requires PendingResult(StepPayload(step), phase) == Some(result)
    requires (result.Complete? && step < 2) || result.Retry? || (result.RetrySequence? && result.delay >= 0)
    requires result.newCells == [] && RunWorks(db, result.works) == Ok(after)
    ensures Reachable(Alone(after, Resumed(step, notBefore, result, now), map[], now, log))
  {
    var s := Working(db, step, notBefore, phase, now, log);
    WorkerIs(db, step, notBefore, phase, now, log);
    assert Additions(s.cells.Keys, result.newCells, NoIds()) == Ok([]);
    ApplyOnward(s, SENDER, result, NoIds());
    AppliedIs(s, SENDER, result, NoIds());
    ResumedIs(after, step, notBefore, phase, now, log, result);
    assert s.phases - {SENDER} == map[];
  }

  // ----- Setup -----

  lemma SetupStores()
    ensures InsertRequest(Database(map[], map[], map[], []), TheRequest(), MESSAGE) == Ok(Db(RowIn(Pending, None)))
  {
    var q, db := TheRequest(), Database(map[], map[], map[], []);
    assert InsertRows(db.progress, q, 0) == InsertRows(map[(TOKEN, WHO) := NewRow(q.recipients[0])], q, 1);
    assert InsertOwners(db.owners, q, 0) == InsertOwners(db.owners, q, 1);
  }

  lemma SetupAccepts(row: Row, messageId: MessageId)
    requires row.name == "" && row.variables == ""
    ensures InsertRequest(Db(row), TheRequest(), messageId) == Ok(Db(row))
  {
    var q := TheRequest();
    assert q.recipients[0].email in Emails(q);
    assert SameRecipient(Db(row), TOKEN, q.recipients[0]);
    assert Stored(Db(row), q);
  }

  lemma SetsUp(db: Database, notBefore: Option<Time>, now: Time, log: seq<Trace>, messageId: MessageId, after: Database)
    requires Reachable(Alone(db, Sender(0, Ready, notBefore), map[], now, log))
    requires (notBefore.Some? ==> notBefore.value <= now) && InsertRequest(db, TheRequest(), messageId) == Ok(after)
    ensures Reachable(Alone(after, Sender(1, Ready, notBefore), map[], now, log))
  {
    Claims(db, 0, notBefore, now, log);
    WorkerIs(db, 0, notBefore, Begun, now, log);
    Moves(db, 0, notBefore, Begun, now, log, RunSetup(messageId), SetupReady(messageId));
    SingleWork(db, EmailHandlers.Insert(TheRequest(), messageId));
    Applies(db, 0, notBefore, SetupReady(messageId), now, log,
            Complete([], [EmailHandlers.Insert(TheRequest(), messageId)]), after);
  }

  // ----- Recovery with nothing to recover -----

  lemma FreshRows(row: Row)
    requires row == RowIn(Pending, None)
    ensures InState(Db(row).progress, TOKEN, Recovery) == {} && InState(Db(row).progress, TOKEN, RecoveryWaiting) == {}
    ensures InState(Db(row).progress, TOKEN, Pending) == {WHO} && !HasUnresolved(Db(row).progress, TOKEN)
  {
    assert (TOKEN, WHO) in Db(row).progress;
  }

  lemma ReadsNothing(notBefore: Option<Time>, now: Time, log: seq<Trace>)
    requires Reachable(Alone(Db(RowIn(Pending, None)), Sender(1, Ready, notBefore), map[], now, log))
    requires notBefore.Some? ==> notBefore.value <= now
    ensures Reachable(Working(Db(RowIn(Pending, None)), 1, notBefore, RecoveryClear, now, log))
  {
    var db := Db(RowIn(Pending, None));
    FreshRows(RowIn(Pending, None));
    Claims(db, 1, notBefore, now, log);
    WorkerIs(db, 1, notBefore, Begun, now, log);
    Moves(db, 1, notBefore, Begun, now, log, ReadNoCandidates, RecoveryClear);
  }

  lemma ReadsNobodyWaiting(notBefore: Option<Time>, now: Time, log: seq<Trace>)
    requires Reachable(Working(Db(RowIn(Pending, None)), 1, notBefore, RecoveryClear, now, log))
    ensures Reachable(Working(Db(RowIn(Pending, None)), 1, notBefore, Plain(Complete([], [])), now, log))
  {
    var db := Db(RowIn(Pending, None));
    FreshRows(RowIn(Pending, None));
    WorkerIs(db, 1, notBefore, RecoveryClear, now, log);
    Moves(db, 1, notBefore, RecoveryClear, now, log, ReadWaiting, Plain(Complete([], [])));
  }

  lemma PassesRecovery(notBefore: Option<Time>, now: Time, log: seq<Trace>)
    requires Reachable(Alone(Db(RowIn(Pending, None)), Sender(1, Ready, notBefore), map[], now, log))
    requires notBefore.Some? ==> notBefore.value <= now
    ensures Reachable(Alone(Db(RowIn(Pending, None)), Sender(2, Ready, notBefore), map[], now, log))
  {
    var db := Db(RowIn(Pending, None));
    ReadsNothing(notBefore, now, log);
    ReadsNobodyWaiting(notBefore, now, log);
    Applies(db, 1, notBefore, Plain(Complete([], [])), now, log, Complete([], []), db);
  }

  // ----- Post, with the provider failing to answer -----

  function Submission(now: Time): seq<Trace> { [Marked(TOKEN, {WHO}, now), Mailed(TOKEN, [WHO], MESSAGE, false)] }

  lemma ReadsPending(notBefore: Option<Time>, now: Time, log: seq<Trace>)
    requires Reachable(Alone(Db(RowIn(Pending, None)), Sender(2, Ready, notBefore), map[], now, log))
    requires notBefore.Some? ==> notBefore.value <= now
    ensures Reachable(Working(Db(RowIn(Pending, None)), 2, notBefore, PostRead([WHO], MESSAGE), now, log))
  {
    var db := Db(RowIn(Pending, None));
    FreshRows(RowIn(Pending, None));
    Claims(db, 2, notBefore, now, log);
    WorkerIs(db, 2, notBefore, Begun, now, log);
    Moves(db, 2, notBefore, Begun, now, log, CheckUnresolved, PostClear);
    WorkerIs(db, 2, notBefore, PostClear, now, log);
    Moves(db, 2, notBefore, PostClear, now, log, ReadPending([WHO]), PostRead([WHO], MESSAGE));
  }

  lemma MarkIs(now: Time)
    ensures MarkSubmitted(Db(RowIn(Pending, None)).progress, TOKEN, now) == Db(RowIn(Pending, Some(now))).progress
  {
  }

  lemma Stamps(notBefore: Option<Time>, now: Time, log: seq<Trace>)
    requires Reachable(Working(Db(RowIn(Pending, None)), 2, notBefore, PostRead([WHO], MESSAGE), now, log))
    ensures Reachable(Working(Db(RowIn(Pending, Some(now))), 2, notBefore, PostMarked([WHO], MESSAGE), now,
                              log + [Marked(TOKEN, {WHO}, now)]))
  {
    var db, stamped := Db(RowIn(Pending, None)), Db(RowIn(Pending, Some(now)));
    FreshRows(RowIn(Pending, None));
    var s := Working(db, 2, notBefore, PostRead([WHO], MESSAGE), now, log);
    WorkerIs(db, 2, notBefore, PostRead([WHO], MESSAGE), now, log);
    MarkOnward(s, SENDER);
    MarkIs(now);
    assert MarkedState(s, SENDER).phases == map[SENDER := PostMarked([WHO], MESSAGE)];
  }

  lemma Submits(notBefore: Option<Time>, now: Time, log: seq<Trace>)
    requires Reachable(Working(Db(RowIn(Pending, None)), 2, notBefore, PostRead([WHO], MESSAGE), now, log))
    ensures Reachable(Working(Db(RowIn(Pending, Some(now))), 2, notBefore, PostAnswered([WHO], SendFailed), now,
                              log + Submission(now)))
  {
    var stamped, marked := Db(RowIn(Pending, Some(now))), log + [Marked(TOKEN, {WHO}, now)];
    Stamps(notBefore, now, log);
    var s := Working(stamped, 2, notBefore, PostMarked([WHO], MESSAGE), now, marked);
    WorkerIs(stamped, 2, notBefore, PostMarked([WHO], MESSAGE), now, marked);
    Onward(s, SendMail(SENDER, SendFailed));
    assert marked + [Mailed(TOKEN, [WHO], MESSAGE, false)] == log + Submission(now);
    assert Perform(s, SendMail(SENDER, SendFailed)).phases == map[SENDER := PostAnswered([WHO], SendFailed)];
  }

  lemma GivesUp(notBefore: Option<Time>, now: Time, log: seq<Trace>)
    requires Reachable(Working(Db(RowIn(Pending, Some(now))), 2, notBefore, PostAnswered([WHO], SendFailed), now, log))
    ensures Reachable(Alone(Db(RowIn(Recovery, Some(now))), Sender(0, Ready, Some(now)), map[], now, log))
  {
    var db, after := Db(RowIn(Pending, Some(now))), Db(RowIn(Recovery, Some(now)));
    SingleWork(db, EmailHandlers.Recover(TOKEN));
    assert RecoverWork(db.progress, TOKEN) == after.progress;
    Applies(db, 2, notBefore, PostAnswered([WHO], SendFailed), now, log,
            RetrySequence(0, [], [EmailHandlers.Recover(TOKEN)]), after);
  }

  // ----- Recovery schedules a verification -----

  const FANOUT: CellId := "f"
  const VERIFY: CellId := "v"

  /** The Send sequence waits beside one other cell. */
  function Beside(
    db: Database, notBefore: Option<Time>, other: Cell<Payload>, phases: map<CellId, Phase>, now: Time, log: seq<Trace>): Sys
  {
    Sys(db, map[SENDER := Sender(1, Ready, notBefore), other.id := other], map[TOKEN := SENDER], phases, Up, now, log)
  }

  function FanoutIds(): Allocator { (n: nat) => Some(FANOUT) }

  lemma ReadsCandidates(at: Time, now: Time, log: seq<Trace>)
    requires Reachable(Alone(Db(RowIn(Recovery, Some(at))), Sender(1, Ready, Some(at)), map[], now, log)) && at <= now
    ensures Reachable(Working(Db(RowIn(Recovery, Some(at))), 1, Some(at), RecoveryRead(at + VERIFY_DELAY), now, log))
  {
    var db := Db(RowIn(Recovery, Some(at)));
    Claims(db, 1, Some(at), now, log);
    WorkerIs(db, 1, Some(at), Begun, now, log);
    assert (TOKEN, WHO) in db.progress;
    assert IsDeadline(db.progress, TOKEN, at + VERIFY_DELAY);
    Moves(db, 1, Some(at), Begun, now, log, ReadCandidates(at + VERIFY_DELAY), RecoveryRead(at + VERIFY_DELAY));
  }

  lemma Named(p: Payload)
    ensures HandlerName(p) != ""
  {
    assert HandlerName(p)[0] == 'd';
  }

  /** A single valid request is added as it is, or under an allocated id. */
  lemma OneAdded(taken: set<CellId>, request: Request<Payload>, allocator: Allocator, id: CellId)
    requires ValidRequest(request) && id != "" && id !in taken
    requires if request.id == "" then allocator(0) == Some(id) else request.id == id
    ensures Additions(taken, [request], allocator) == Ok([request.(id := id)])
  {
    var named := request.(id := id);
    assert [request][1..] == [] && [named][1..] == [] && [named] + [] == [named];
    assert Identify([request][1..], allocator, 0) == Ok([]) && Identify([request][1..], allocator, 1) == Ok([]);
    assert Identify([request], allocator, 0) == Ok([named]);
    assert ValidRequest(named) && InsertProblem(taken + {id}, [named][1..]) == None;
    assert InsertProblem(taken, [named]) == None;
  }

  lemma FanoutAdded(taken: set<CellId>, deadline: Time)
    requires FANOUT !in taken
    ensures Additions(taken, RecoveryResult(TOKEN, deadline).newCells, FanoutIds())
      == Ok([Request(FANOUT, [StepOf(FanoutStep(TOKEN))], Some(deadline))])
  {
    var request := Request("", [StepOf(FanoutStep(TOKEN))], Some(deadline));
    Named(FanoutStep(TOKEN));
    assert ValidRequest(request);
    OneAdded(taken, request, FanoutIds(), FANOUT);
  }

  lemma WaitIs(at: Time)
    ensures WaitWork(Db(RowIn(Recovery, Some(at))).progress, TOKEN) == Db(RowIn(RecoveryWaiting, Some(at))).progress
  {
  }

  lemma Schedules(at: Time, now: Time, log: seq<Trace>)
    requires Reachable(Working(Db(RowIn(Recovery, Some(at))), 1, Some(at), RecoveryRead(at + VERIFY_DELAY), now, log))
    ensures Reachable(Beside(Db(RowIn(RecoveryWaiting, Some(at))), Some(at + VERIFY_DELAY),
                             FanoutCell(FANOUT, TOKEN, at + VERIFY_DELAY), map[], now, log))
  {
    var deadline := at + VERIFY_DELAY;
    var db, waiting := Db(RowIn(Recovery, Some(at))), Db(RowIn(RecoveryWaiting, Some(at)));
    var s := Working(db, 1, Some(at), RecoveryRead(deadline), now, log);
    var result := RecoveryResult(TOKEN, deadline);
    WorkerIs(db, 1, Some(at), RecoveryRead(deadline), now, log);
    FanoutAdded(s.cells.Keys, deadline);
    SingleWork(db, Wait(TOKEN));
    WaitIs(at);
    ApplyOnward(s, SENDER, result, FanoutIds());
    RecoveryAppliedIs(s, SENDER, TOKEN, deadline, FanoutIds());
    ResumedIs(waiting, 1, Some(at), RecoveryRead(deadline), now, log, result);
    assert s.phases - {SENDER} == map[];
    assert Applied(s, SENDER, result, FanoutIds())
      == Beside(waiting, Some(deadline), FanoutCell(FANOUT, TOKEN, deadline), map[], now, log);
  }

  lemma TimePasses(s: Sys, duration: nat)
    requires Reachable(s)
    ensures Reachable(s.(now := s.now + duration))
  {
    Onward(s, Elapse(duration));
  }

  // ----- The other cell -----

  function Busy(db: Database, notBefore: Option<Time>, other: Cell<Payload>, phase: Phase, now: Time, log: seq<Trace>): Sys {
    Beside(db, notBefore, other.(state := Claimed), map[other.id := phase], now, log)
  }

  lemma ClaimsOther(db: Database, notBefore: Option<Time>, other: Cell<Payload>, now: Time, log: seq<Trace>)
    requires Reachable(Beside(db, notBefore, other, map[], now, log)) && other.id != SENDER && Runnable(other, now)
    ensures Reachable(Busy(db, notBefore, other, Begun, now, log))
  {
    var s := Beside(db, notBefore, other, map[], now, log);
    Onward(s, ClaimCell(other.id));
    assert Perform(s, ClaimCell(other.id)) == Busy(db, notBefore, other, Begun, now, log);
  }

  lemma MovesOther(
    db: Database, notBefore: Option<Time>, other: Cell<Payload>, phase: Phase, now: Time, log: seq<Trace>, move: Move,
    next: Phase)
    requires Reachable(Busy(db, notBefore, other, phase, now, log)) && other.id != SENDER
    requires EmailProtocol.Working(Busy(db, notBefore, other, phase, now, log), other.id)
    requires MoveEnabled(Busy(db, notBefore, other, phase, now, log), other.id, move)
    requires NextPhase(Busy(db, notBefore, other, phase, now, log), other.id, move) == next
    ensures Reachable(Busy(db, notBefore, other, next, now, log))
  {
    var s := Busy(db, notBefore, other, phase, now, log);
    Onward(s, Step(other.id, move));
    assert Perform(s, Step(other.id, move)).phases == map[other.id := next];
  }

  /** A single-step cell that completes is gone. */
  lemma CompletedIs(db: Database, notBefore: Option<Time>, other: Cell<Payload>, phase: Phase, now: Time, log: seq<Trace>, result: EmailResult)
    requires other.id != SENDER && |other.steps| == 1 && other.currentStep == 0 && result.Complete?
    ensures Finished(Busy(db, notBefore, other, phase, now, log).(phases := map[]), other.id, result)
      == Alone(db, Sender(1, Ready, notBefore), map[], now, log)
  {
    var s := Busy(db, notBefore, other, phase, now, log);
    var settled := Settle(s.cells, s.cells[other.id], result, now);
    assert settled == map[SENDER := Sender(1, Ready, notBefore)];
    assert SendersAfter(s.senders, settled) == s.senders;
  }

  // ----- The fanout expands -----

  function VerifyCell(): Cell<Payload> { NewCell(Request(VERIFY, [StepOf(VerifyStep((TOKEN, WHO)))], None)) }

  lemma Expands(at: Time, now: Time, log: seq<Trace>)
    requires Reachable(Beside(Db(RowIn(RecoveryWaiting, Some(at))), Some(at + VERIFY_DELAY),
                              FanoutCell(FANOUT, TOKEN, at + VERIFY_DELAY), map[], now, log))
    requires at + VERIFY_DELAY <= now
    ensures Reachable(Busy(Db(RowIn(RecoveryWaiting, Some(at))), Some(at + VERIFY_DELAY),
                           FanoutCell(FANOUT, TOKEN, at + VERIFY_DELAY), FanoutRead([WHO], [VERIFY]), now, log))
  {
    var db, deadline := Db(RowIn(RecoveryWaiting, Some(at))), at + VERIFY_DELAY;
    var fanout := FanoutCell(FANOUT, TOKEN, deadline);
    ClaimsOther(db, Some(deadline), fanout, now, log);
    assert (TOKEN, WHO) in db.progress;
    assert InState(db.progress, TOKEN, RecoveryWaiting) == {WHO};
    assert CurrentPayload(Busy(db, Some(deadline), fanout, Begun, now, log).cells[FANOUT]) == FanoutStep(TOKEN);
    MovesOther(db, Some(deadline), fanout, Begun, now, log, ExpandFanout([WHO], [VERIFY]), FanoutRead([WHO], [VERIFY]));
  }

  lemma VerifyAdded(taken: set<CellId>)
    requires VERIFY !in taken
    ensures var request := Request(VERIFY, [StepOf(VerifyStep((TOKEN, WHO)))], None);
      && FanoutResult(TOKEN, [WHO], [VERIFY]) == Complete([request], [])
      && Additions(taken, [request], NoIds()) == Ok([request])
  {
    var request := Request(VERIFY, [StepOf(VerifyStep((TOKEN, WHO)))], None);
    assert FanoutResult(TOKEN, [WHO], [VERIFY]).newCells == [request];
    Named(VerifyStep((TOKEN, WHO)));
    assert ValidRequest(request);
    OneAdded(taken, request, NoIds(), VERIFY);
  }

  lemma FansOut(at: Time, now: Time, log: seq<Trace>)
    requires Reachable(Busy(Db(RowIn(RecoveryWaiting, Some(at))), Some(at + VERIFY_DELAY),
                            FanoutCell(FANOUT, TOKEN, at + VERIFY_DELAY), FanoutRead([WHO], [VERIFY]), now, log))
    ensures Reachable(Beside(Db(RowIn(RecoveryWaiting, Some(at))), Some(at + VERIFY_DELAY), VerifyCell(), map[], now, log))
  {
    var db, deadline := Db(RowIn(RecoveryWaiting, Some(at))), at + VERIFY_DELAY;
    var fanout, result := FanoutCell(FANOUT, TOKEN, deadline), FanoutResult(TOKEN, [WHO], [VERIFY]);
    var s := Busy(db, Some(deadline), fanout, FanoutRead([WHO], [VERIFY]), now, log);
    VerifyAdded(s.cells.Keys);
    assert CurrentPayload(s.cells[FANOUT]) == FanoutStep(TOKEN);
    ApplyOnward(s, FANOUT, result, NoIds());
    SendersStand(s);
    AppliedWithCellsIs(s, FANOUT, result, NoIds());
    CompletedIs(db, Some(deadline), fanout, FanoutRead([WHO], [VERIFY]), now, log, result);
    assert s.phases - {FANOUT} == map[];
    InsertOne(map[SENDER := Sender(1, Ready, Some(deadline))], result.newCells);
    assert Applied(s, FANOUT, result, NoIds()) == Beside(db, Some(deadline), VerifyCell(), map[], now, log);
  }

  lemma SendersStand(s: Sys)
    requires s.senders == map[TOKEN := SENDER] && SENDER in s.cells && RoleOf(s.cells[SENDER]) == SendRole(TOKEN)
    requires forall id :: id in s.cells && id != SENDER ==> !RoleOf(s.cells[id]).SendRole?
    ensures SendersMatch(s.cells, s.senders)
  {
  }

  // ----- The verification finds nothing -----

  function Nothing(at: Time, now: Time): Trace { Verified((TOKEN, WHO), MESSAGE, at, now, NotFound) }

  lemma Asks(at: Time, now: Time, log: seq<Trace>)
    requires Reachable(Beside(Db(RowIn(RecoveryWaiting, Some(at))), Some(at + VERIFY_DELAY), VerifyCell(), map[], now, log))
    ensures Reachable(Busy(Db(RowIn(RecoveryWaiting, Some(at))), Some(at + VERIFY_DELAY), VerifyCell(),
                           VerifyAnswered(NotFound), now, log + [Nothing(at, now)]))
  {
    var db, nb := Db(RowIn(RecoveryWaiting, Some(at))), Some(at + VERIFY_DELAY);
    ClaimsOther(db, nb, VerifyCell(), now, log);
    assert (TOKEN, WHO) in db.progress;
    assert CurrentPayload(Busy(db, nb, VerifyCell(), Begun, now, log).cells[VERIFY]) == VerifyStep((TOKEN, WHO));
    MovesOther(db, nb, VerifyCell(), Begun, now, log, ReadRow, VerifyRead(at, MESSAGE));
    var s := Busy(db, nb, VerifyCell(), VerifyRead(at, MESSAGE), now, log);
    assert CurrentPayload(s.cells[VERIFY]) == VerifyStep((TOKEN, WHO));
    Onward(s, Ask(VERIFY, NotFound));
    assert Perform(s, Ask(VERIFY, NotFound)).phases == map[VERIFY := VerifyAnswered(NotFound)];
  }

  lemma Reopens(at: Time, now: Time, log: seq<Trace>)
    requires Reachable(Busy(Db(RowIn(RecoveryWaiting, Some(at))), Some(at + VERIFY_DELAY), VerifyCell(),
                            VerifyAnswered(NotFound), now, log))
    ensures Reachable(Alone(Db(RowIn(Pending, None)), Sender(1, Ready, Some(at + VERIFY_DELAY)), map[], now, log))
  {
    var db, nb, after := Db(RowIn(RecoveryWaiting, Some(at))), Some(at + VERIFY_DELAY), Db(RowIn(Pending, None));
    var s := Busy(db, nb, VerifyCell(), VerifyAnswered(NotFound), now, log);
    var result: EmailResult := Complete([], [Absent((TOKEN, WHO))]);
    assert CurrentPayload(s.cells[VERIFY]) == VerifyStep((TOKEN, WHO));
    SingleWork(db, Absent((TOKEN, WHO)));
    assert AbsentWork(db.progress, (TOKEN, WHO)) == after.progress;
    assert Additions(s.cells.Keys, result.newCells, NoIds()) == Ok([]);
    ApplyOnward(s, VERIFY, result, NoIds());
    AppliedIs(s, VERIFY, result, NoIds());
    CompletedIs(after, nb, VerifyCell(), VerifyAnswered(NotFound), now, log, result);
    assert s.phases - {VERIFY} == map[];
  }

  // ----- The whole run -----

  /** The first submission, whose outcome stays unknown. */
  lemma FirstSubmission()
    ensures Reachable(Alone(Db(RowIn(Recovery, Some(0))), Sender(1, Ready, Some(0)), map[], 0, Submission(0)))
  {
    StartsEmpty();
    SetupStores();
    SetsUp(Database(map[], map[], map[], []), None, 0, [], MESSAGE, Db(RowIn(Pending, None)));
    PassesRecovery(None, 0, []);
    ReadsPending(None, 0, []);
    Submits(None, 0, []);
    assert [] + Submission(0) == Submission(0);
    GivesUp(None, 0, Submission(0));
    SetupAccepts(RowIn(Recovery, Some(0)), "other");
    SetsUp(Db(RowIn(Recovery, Some(0))), Some(0), 0, Submission(0), "other", Db(RowIn(Recovery, Some(0))));
  }

  function WholeTrace(): seq<Trace> {
    Submission(0) + [Nothing(0, VERIFY_DELAY)] + Submission(VERIFY_DELAY)
  }

  lemma Verification()
    ensures Reachable(Alone(Db(RowIn(Pending, None)), Sender(1, Ready, Some(0 + VERIFY_DELAY)), map[], VERIFY_DELAY,
                            Submission(0) + [Nothing(0, VERIFY_DELAY)]))
  {
    FannedOut();
    Asks(0, VERIFY_DELAY, Submission(0));
    Reopens(0, VERIFY_DELAY, Submission(0) + [Nothing(0, VERIFY_DELAY)]);
  }

  lemma FannedOut()
    ensures Reachable(Beside(Db(RowIn(RecoveryWaiting, Some(0))), Some(0 + VERIFY_DELAY), VerifyCell(), map[],
                             VERIFY_DELAY, Submission(0)))
  {
    Scheduled();
    Expands(0, VERIFY_DELAY, Submission(0));
    FansOut(0, VERIFY_DELAY, Submission(0));
  }

  lemma Scheduled()
    ensures Reachable(Beside(Db(RowIn(RecoveryWaiting, Some(0))), Some(0 + VERIFY_DELAY),
                             FanoutCell(FANOUT, TOKEN, 0 + VERIFY_DELAY), map[], VERIFY_DELAY, Submission(0)))
  {
    FirstSubmission();
    ReadsCandidates(0, 0, Submission(0));
    Schedules(0, 0, Submission(0));
    TimePasses(Beside(Db(RowIn(RecoveryWaiting, Some(0))), Some(0 + VERIFY_DELAY),
                      FanoutCell(FANOUT, TOKEN, 0 + VERIFY_DELAY), map[], 0, Submission(0)), VERIFY_DELAY);
  }

  lemma SecondSubmission()
    ensures Reachable(Working(Db(RowIn(Pending, Some(VERIFY_DELAY))), 2, Some(VERIFY_DELAY),
                              PostAnswered([WHO], SendFailed), VERIFY_DELAY, WholeTrace()))
  {
    var log := Submission(0) + [Nothing(0, VERIFY_DELAY)];
    Verification();
    PassesRecovery(Some(VERIFY_DELAY), VERIFY_DELAY, log);
    ReadsPending(Some(VERIFY_DELAY), VERIFY_DELAY, log);
    Submits(Some(VERIFY_DELAY), VERIFY_DELAY, log);
  }

  /** Some run submits a recipient twice, through a failed Send, recovery, a fanout
      and a verification that found nothing. */
  lemma ResendHappens()
    ensures exists start, actions, i, j, key ::
      ResendIn(start, actions, i, j, key)
  {
    SecondSubmission();
    var s := Working(Db(RowIn(Pending, Some(VERIFY_DELAY))), 2, Some(VERIFY_DELAY),
                     PostAnswered([WHO], SendFailed), VERIFY_DELAY, WholeTrace());
    var start, actions :| IsRun(Initial(start), actions) && After(Initial(start), actions) == s;
    assert WholeTrace()[1] == Mailed(TOKEN, [WHO], MESSAGE, false) && WholeTrace()[4] == Mailed(TOKEN, [WHO], MESSAGE, false);
    assert ResendIn(start, actions, 1, 4, (TOKEN, WHO));
  }

  /** Events i and j of the run's trace both submit the recipient. */
  ghost predicate ResendIn(start: Time, actions: seq<Action>, i: int, j: int, key: Key) {
    && IsRun(Initial(start), actions)
    && var log := After(Initial(start), actions).log;
       && 0 <= i < j < |log|
       && log[i].Mailed? && Includes(log[i].token, log[i].recipients, key)
       && log[j].Mailed? && Includes(log[j].token, log[j].recipients, key)
  }
}

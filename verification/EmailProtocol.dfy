/** Durable email delivery as a transition system over the tables, the Cellar
    cells and the workers in flight.

    Every action is one atomic piece of a handler, a store transaction, a webhook,
    or part of a crash and restart; any enabled action may happen next. A trace
    records what the provider saw: submissions stamped, mail sent, best-effort
    acceptances committed and verifications asked.

    Assumptions: a new Send sequence is added for a token only when none is live
    for it; submissions are recovered after a crash before workers start; database
    transactions are atomic; the clock never goes back. */
module EmailProtocol {
  import opened Basics
  import opened Cells
  import opened EmailEvents
  import opened EmailStore
  import opened EmailHandlers

  /** How far a worker has got with its claimed cell. */
  datatype Phase =
    | Begun
    | SetupReady(messageId: MessageId)
    | RecoveryRead(deadline: Time)
    | RecoveryClear
    | PostClear
    | PostRead(pending: seq<Recipient>, messageId: MessageId)
    | PostMarked(pending: seq<Recipient>, messageId: MessageId)
    | PostAnswered(pending: seq<Recipient>, sendAnswer: SendAnswer)
    | PostAccepted(pending: seq<Recipient>, messageId: MessageId)
    | FanoutRead(waiting: seq<Recipient>, ids: seq<CellId>)
    | VerifyRead(sentAt: Time, messageId: MessageId)
    | VerifyAnswered(answer: Answer)
    | Plain(result: EmailResult)

  /** Crashed, submissions recovered but not yet started, or running. */
  datatype Mode = Down | Recovered | Up

  datatype Trace =
    | Marked(token: Token, stamped: set<Recipient>, at: Time)
    | Mailed(token: Token, recipients: seq<Recipient>, messageId: MessageId, bestEffort: bool)
    | Handled(token: Token, recipients: seq<Recipient>)
    | Verified(key: Key, messageId: MessageId, sentAt: Time, at: Time, answer: Answer)

  datatype Sys = Sys(
    db: Database, cells: CellMap<Payload>, senders: map<Token, CellId>, phases: map<CellId, Phase>,
    mode: Mode, now: Time, log: seq<Trace>)

  /** Reads and local decisions inside a handler; they change the worker only. */
  datatype Move =
    | RunSetup(messageId: MessageId)
    | ReadCandidates(deadline: Time)
    | ReadNoCandidates
    | ReadWaiting
    | ExpandFanout(waiting: seq<Recipient>, ids: seq<CellId>)
    | CheckUnresolved
    | ReadPending(pending: seq<Recipient>)
    | Defer(delay: nat)
    | ReadRow

  datatype Action =
    | Elapse(duration: nat)
    | Submit(id: CellId, request: SendRequest)
    | Webhook(key: Key, event: DeliveryEvent)
    | Crash
    | RecoverAll
    | Start
    | ClaimCell(id: CellId)
    | Fail(id: CellId)
    | Step(id: CellId, move: Move)
    | Mark(id: CellId)
    | SendMail(id: CellId, sendAnswer: SendAnswer)
    | AcceptNow(id: CellId)
    | SendBestEffort(id: CellId)
    | Ask(id: CellId, answer: Answer)
    | Apply(id: CellId, allocator: Allocator)

  function CurrentPayload(cell: Cell<Payload>): Payload
    requires 0 <= cell.currentStep < |cell.steps|
  {
    cell.steps[cell.currentStep].payload
  }

  /** The worker on cell `id`, if it runs and its cell points at a step. */
  predicate Working(s: Sys, id: CellId) {
    && s.mode == Up && id in s.phases && id in s.cells
    && 0 <= s.cells[id].currentStep < |s.cells[id].steps|
  }

  /** Rows of a token in a state, as a set of recipients. */
  function InState(rows: Rows, token: Token, state: RowState): set<Recipient> {
    set k | k in rows && k.0 == token && rows[k].state == state :: k.1
  }

  ghost predicate HasUnresolved(rows: Rows, token: Token) {
    exists k :: k in rows && k.0 == token && Unresolved(rows[k])
  }

  /** The recovery candidates exist and all carry a submission time; `deadline`
      is the latest of their verification deadlines. */
  ghost predicate IsDeadline(rows: Rows, token: Token, deadline: Time) {
    && (exists k :: k in rows && k.0 == token && rows[k].state == Recovery
          && rows[k].submittedAt == Some(deadline - VERIFY_DELAY))
    && forall k :: k in rows && k.0 == token && rows[k].state == Recovery ==>
         rows[k].submittedAt.Some? && rows[k].submittedAt.value + VERIFY_DELAY <= deadline
  }

  // ----- Handler-internal moves -----

  ghost predicate MoveEnabled(s: Sys, id: CellId, move: Move)
    requires Working(s, id)
  {
    var payload, phase := CurrentPayload(s.cells[id]), s.phases[id];
    match move
    case RunSetup(_) => phase == Begun && payload.SetupStep? && DistinctRecipients(payload.request)
    case ReadCandidates(deadline) =>
      phase == Begun && payload.RecoveryStep? && IsDeadline(s.db.progress, payload.token, deadline)
    case ReadNoCandidates =>
      phase == Begun && payload.RecoveryStep? && InState(s.db.progress, payload.token, Recovery) == {}
    case ReadWaiting => phase == RecoveryClear && payload.RecoveryStep?
    case ExpandFanout(waiting, ids) =>
      && phase == Begun && payload.FanoutStep? && |ids| == |waiting|
      && Lists(waiting, InState(s.db.progress, payload.token, RecoveryWaiting))
    case CheckUnresolved => phase == Begun && payload.PostStep?
    case ReadPending(pending) =>
      && phase == PostClear && payload.PostStep?
      && Lists(pending, InState(s.db.progress, payload.token, Pending))
      && (pending != [] ==> payload.token in s.db.requests)
    case Defer(delay) => phase.PostRead? && delay > 0
    case ReadRow =>
      && phase == Begun && payload.VerifyStep?
      && (payload.key in s.db.progress && s.db.progress[payload.key].state == RecoveryWaiting ==>
            s.db.progress[payload.key].submittedAt.Some? && payload.key.0 in s.db.requests)
  }

  ghost function NextPhase(s: Sys, id: CellId, move: Move): Phase
    requires Working(s, id) && MoveEnabled(s, id, move)
  {
    var payload, phase, rows := CurrentPayload(s.cells[id]), s.phases[id], s.db.progress;
    match move
    case RunSetup(messageId) => SetupReady(messageId)
    case ReadCandidates(deadline) => RecoveryRead(deadline)
    case ReadNoCandidates => RecoveryClear
    case ReadWaiting =>
      if InState(rows, payload.token, RecoveryWaiting) != {} then Plain(Retry(Some(s.now + SECOND), [], []))
      else Plain(Complete([], []))
    case ExpandFanout(waiting, ids) => FanoutRead(waiting, ids)
    case CheckUnresolved =>
      if HasUnresolved(rows, payload.token) then Plain(RetrySequence(0, [], [])) else PostClear
    case ReadPending(pending) =>
      if pending == [] then Plain(Complete([], []))
      else PostRead(pending, s.db.requests[payload.token].messageId)
    case Defer(delay) => Plain(Retry(Some(s.now + delay), [], []))
    case ReadRow =>
      if payload.key in rows && rows[payload.key].state == RecoveryWaiting then
        VerifyRead(rows[payload.key].submittedAt.value, s.db.requests[payload.key.0].messageId)
      else Plain(Complete([], []))
  }

  // ----- Results -----

  /** The result a worker is about to apply, once it has one. */
  function PendingResult(payload: Payload, phase: Phase): Option<EmailResult> {
    match phase
    case SetupReady(messageId) =>
      if payload.SetupStep? then Some(Complete([], [Insert(payload.request, messageId)])) else None
    case RecoveryRead(deadline) =>
      if payload.RecoveryStep? then Some(RecoveryResult(payload.token, deadline)) else None
    case PostAnswered(pending, sendAnswer) =>
      if payload.PostStep? then Some(PostResult(payload.token, pending, sendAnswer)) else None
    case FanoutRead(waiting, ids) =>
      if payload.FanoutStep? && |ids| == |waiting| then Some(FanoutResult(payload.token, waiting, ids)) else None
    case VerifyAnswered(answer) =>
      if payload.VerifyStep? then VerifyResult(payload.key, answer) else None
    case Plain(result) => Some(result)
    case _ => None
  }

  /** Applying succeeds when the work and the store accept it. */
  ghost predicate CanApply(s: Sys, id: CellId, result: EmailResult, allocator: Allocator)
    requires id in s.cells
  {
    && Storable(result) && RunWorks(s.db, result.works).Ok?
    && ApplyResult(s.cells, s.cells[id], result, true, allocator, s.now).Ok?
  }

  /** The token of a live Send sequence, dropped when its cell is gone. */
  function SendersAfter(senders: map<Token, CellId>, cells: CellMap<Payload>): map<Token, CellId> {
    map t | t in senders && senders[t] in cells :: senders[t]
  }

  ghost function Applied(s: Sys, id: CellId, result: EmailResult, allocator: Allocator): Sys
    requires id in s.cells && CanApply(s, id, result, allocator)
  {
    var cells := ApplyResult(s.cells, s.cells[id], result, true, allocator, s.now).value;
    s.(db := RunWorks(s.db, result.works).value, cells := cells,
       senders := SendersAfter(s.senders, cells), phases := s.phases - {id})
  }

  // ----- Post's two ways of sending -----

  predicate CanMark(s: Sys, id: CellId) {
    Working(s, id) && s.phases[id].PostRead? && CurrentPayload(s.cells[id]).PostStep?
  }

  /** Stamps every pending row before the provider is called. */
  function MarkedState(s: Sys, id: CellId): Sys
    requires CanMark(s, id)
  {
    var token, phase := CurrentPayload(s.cells[id]).token, s.phases[id];
    s.(db := s.db.(progress := MarkSubmitted(s.db.progress, token, s.now)),
       phases := s.phases[id := PostMarked(phase.pending, phase.messageId)],
       log := s.log + [Marked(token, InState(s.db.progress, token, Pending), s.now)])
  }

  predicate CanSend(s: Sys, id: CellId) {
    Working(s, id) && s.phases[id].PostMarked? && CurrentPayload(s.cells[id]).PostStep?
  }

  function SentState(s: Sys, id: CellId, sendAnswer: SendAnswer): Sys
    requires CanSend(s, id)
  {
    var token, phase := CurrentPayload(s.cells[id]).token, s.phases[id];
    s.(phases := s.phases[id := PostAnswered(phase.pending, sendAnswer)],
       log := s.log + [Mailed(token, phase.pending, phase.messageId, false)])
  }

  /** The rows a best-effort acceptance would commit. */
  function BestEffortRows(s: Sys, id: CellId): Option<Rows>
    requires CanMark(s, id)
  {
    AcceptBestEffort(s.db.progress, CurrentPayload(s.cells[id]).token, s.phases[id].messageId, s.phases[id].pending, 0)
  }

  /** Commits acceptance of the whole batch before the provider is called. */
  function HandledState(s: Sys, id: CellId): Sys
    requires CanMark(s, id) && BestEffortRows(s, id).Some?
  {
    var token, phase := CurrentPayload(s.cells[id]).token, s.phases[id];
    s.(db := s.db.(progress := BestEffortRows(s, id).value),
       phases := s.phases[id := PostAccepted(phase.pending, phase.messageId)],
       log := s.log + [Handled(token, phase.pending)])
  }

  predicate CanSendBestEffort(s: Sys, id: CellId) {
    Working(s, id) && s.phases[id].PostAccepted? && CurrentPayload(s.cells[id]).PostStep?
  }

  function BestEffortSentState(s: Sys, id: CellId): Sys
    requires CanSendBestEffort(s, id)
  {
    var token, phase := CurrentPayload(s.cells[id]).token, s.phases[id];
    s.(phases := s.phases[id := Plain(Complete([], []))],
       log := s.log + [Mailed(token, phase.pending, phase.messageId, true)])
  }

  predicate CanAsk(s: Sys, id: CellId) {
    Working(s, id) && s.phases[id].VerifyRead? && CurrentPayload(s.cells[id]).VerifyStep?
  }

  function AskedState(s: Sys, id: CellId, answer: Answer): Sys
    requires CanAsk(s, id)
  {
    var key, phase := CurrentPayload(s.cells[id]).key, s.phases[id];
    s.(phases := s.phases[id := VerifyAnswered(answer)],
       log := s.log + [Verified(key, phase.messageId, phase.sentAt, s.now, answer)])
  }

  // ----- Actions -----

  ghost predicate Enabled(s: Sys, a: Action) {
    match a
    case Elapse(_) => true
    case Submit(id, q) => id != "" && id !in s.cells && q.token !in s.senders
    case Webhook(key, _) => key in s.db.progress
    case Crash => true
    case RecoverAll => s.mode == Down
    case Start => s.mode == Recovered
    case ClaimCell(id) => s.mode == Up && id in s.cells && Runnable(s.cells[id], s.now)
    case Fail(id) => Working(s, id)
    case Step(id, move) => Working(s, id) && MoveEnabled(s, id, move)
    case Mark(id) => CanMark(s, id)
    case SendMail(id, _) => CanSend(s, id)
    case AcceptNow(id) => CanMark(s, id) && BestEffortRows(s, id).Some?
    case SendBestEffort(id) => CanSendBestEffort(s, id)
    case Ask(id, _) => CanAsk(s, id)
    case Apply(id, allocator) =>
      && Working(s, id)
      && var result := PendingResult(CurrentPayload(s.cells[id]), s.phases[id]);
         result.Some? && CanApply(s, id, result.value, allocator)
  }

  ghost function Perform(s: Sys, a: Action): Sys
    requires Enabled(s, a)
  {
    match a
    case Elapse(duration) => s.(now := s.now + duration)
    case Submit(id, q) =>
      s.(cells := s.cells[id := Cell(id, SendSteps(q), 0, Ready, None)], senders := s.senders[q.token := id])
    case Webhook(key, event) => s.(db := RecordEvent(s.db, key, event, s.now))
    case Crash => s.(mode := Down, phases := map[])
    case RecoverAll => s.(mode := Recovered, db := s.db.(progress := RecoverSubmissions(s.db.progress)))
    case Start => s.(mode := Up, cells := Cells.Recover(s.cells))
    case ClaimCell(id) => s.(cells := Claim(s.cells, id), phases := s.phases[id := Begun])
    case Fail(id) => s.(phases := s.phases - {id})
    case Step(id, move) => s.(phases := s.phases[id := NextPhase(s, id, move)])
    case Mark(id) => MarkedState(s, id)
    case SendMail(id, sendAnswer) => SentState(s, id, sendAnswer)
    case AcceptNow(id) => HandledState(s, id)
    case SendBestEffort(id) => BestEffortSentState(s, id)
    case Ask(id, answer) => AskedState(s, id, answer)
    case Apply(id, allocator) =>
      Applied(s, id, PendingResult(CurrentPayload(s.cells[id]), s.phases[id]).value, allocator)
  }

  function Initial(now: Time): Sys {
    Sys(Database(map[], map[], map[], []), map[], map[], map[], Down, now, [])
  }

  // ----- Runs -----

  ghost predicate IsRun(s: Sys, actions: seq<Action>)
    decreases |actions|
  {
    actions == [] || (Enabled(s, actions[0]) && IsRun(Perform(s, actions[0]), actions[1..]))
  }

  ghost function After(s: Sys, actions: seq<Action>): Sys
    requires IsRun(s, actions)
    decreases |actions|
  {
    if actions == [] then s else After(Perform(s, actions[0]), actions[1..])
  }

  // ----- Reading the trace -----

  /** Best-effort handling of a recipient: accepted and about to be sent once, or sent. */
  datatype Handling = Untouched | Awaiting(batch: seq<Recipient>) | Done

  /** What the trace says about one recipient of one token. */
  datatype Summary = Summary(outstanding: bool, latestMark: Option<Time>, handling: Handling)

  predicate Includes(token: Token, recipients: seq<Recipient>, key: Key) {
    key.0 == token && key.1 in recipients
  }

  /** A Send makes the outcome unknown; only a verification that finds nothing clears it. */
  function Absorb(sum: Summary, key: Key, e: Trace): Summary {
    match e
    case Marked(token, stamped, at) =>
      if key.0 == token && key.1 in stamped then
        sum.(latestMark := Some(if sum.latestMark.Some? && sum.latestMark.value > at then sum.latestMark.value else at))
      else sum
    case Mailed(token, recipients, _, bestEffort) =>
      if Includes(token, recipients, key) then
        sum.(outstanding := true, handling := if bestEffort && sum.handling.Awaiting? then Done else sum.handling)
      else sum
    case Handled(token, recipients) =>
      if Includes(token, recipients, key) then sum.(handling := Awaiting(recipients)) else sum
    case Verified(k, _, _, _, answer) =>
      if k == key && answer == NotFound then sum.(outstanding := false) else sum
  }

  function Summarise(log: seq<Trace>, key: Key): Summary {
    if log == [] then Summary(false, None, Untouched)
    else Absorb(Summarise(log[..|log| - 1], key), key, log[|log| - 1])
  }

  function TokenOf(e: Trace): Token {
    if e.Verified? then e.key.0 else e.token
  }

  function MessageAfter(before: Option<MessageId>, token: Token, e: Trace): Option<MessageId> {
    if TokenOf(e) == token && (e.Mailed? || e.Verified?) then Some(e.messageId) else before
  }

  /** The message id last shown to the provider for a token. */
  function MessageOf(log: seq<Trace>, token: Token): Option<MessageId> {
    if log == [] then None else MessageAfter(MessageOf(log[..|log| - 1], token), token, log[|log| - 1])
  }

  /** What each trace event must respect of the trace before it. */
  ghost predicate Respects(before: seq<Trace>, e: Trace) {
    match e
    case Marked(_, _, _) => true
    case Handled(token, recipients) =>
      forall r :: r in recipients ==> Summarise(before, (token, r)).handling == Untouched
    case Mailed(token, recipients, messageId, bestEffort) =>
      && (forall r :: r in recipients ==>
            var sum := Summarise(before, (token, r));
            !sum.outstanding && sum.handling == (if bestEffort then Awaiting(recipients) else Untouched))
      && (MessageOf(before, token).Some? ==> MessageOf(before, token).value == messageId)
    case Verified(key, messageId, sentAt, at, _) =>
      && sentAt + VERIFY_DELAY <= at
      && (Summarise(before, key).latestMark.Some? ==> Summarise(before, key).latestMark.value <= sentAt)
      && (MessageOf(before, key.0).Some? ==> MessageOf(before, key.0).value == messageId)
  }

  ghost predicate Lawful(log: seq<Trace>) {
    log == [] || (Lawful(log[..|log| - 1]) && Respects(log[..|log| - 1], log[|log| - 1]))
  }

  lemma Extended(log: seq<Trace>, e: Trace)
    ensures forall key :: Summarise(log + [e], key) == Absorb(Summarise(log, key), key, e)
    ensures forall t :: MessageOf(log + [e], t) == MessageAfter(MessageOf(log, t), t, e)
    ensures Lawful(log) && Respects(log, e) ==> Lawful(log + [e])
  {
    assert (log + [e])[..|log|] == log;
  }
}

/** The invariant of durable email delivery, and lemmas saying which single
    changes of the state keep it. */
module EmailInvariant {
  import opened Basics
  import opened Cells
  import opened EmailStore
  import opened EmailHandlers
  import opened EmailProtocol

  /** What a progress row means to the protocol. */
  datatype Kind =
    | KFresh     // may be submitted
    | KInFlight  // stamped, and the submission may be under way
    | KRecovery  // outcome unknown, verification not yet scheduled
    | KWaiting   // outcome unknown, verification scheduled
    | KSettled   // never to be submitted again

  function KindOf(row: Row): Kind {
    match row.state
    case Pending => if row.submittedAt.None? then KFresh else KInFlight
    case Recovery => KRecovery
    case RecoveryWaiting => KWaiting
    case _ => KSettled
  }

  type Requests = map<Token, StoredRequest>

  // ----- Rows -----

  /** Unresolved rows carry a submission time, unsettled rows no provider id. */
  predicate RowSane(row: Row) {
    && (Unresolved(row) ==> row.submittedAt.Some?)
    && (KindOf(row) != KSettled ==> row.pmuid.None?)
  }

  ghost predicate RowsSane(rows: Rows) {
    forall k :: k in rows ==> RowSane(rows[k])
  }

  /** Which kinds may stand side by side under one token. */
  predicate Compatible(a: Kind, b: Kind) {
    a == b || a == KSettled || b == KSettled || (a == KFresh && b == KWaiting) || (a == KWaiting && b == KFresh)
  }

  ghost predicate Harmonious(rows: Rows) {
    forall k, l :: k in rows && l in rows && k.0 == l.0 ==> Compatible(KindOf(rows[k]), KindOf(rows[l]))
  }

  /** All rows of the token are of one kind or settled. */
  ghost predicate OnlyKind(rows: Rows, token: Token, kind: Kind) {
    forall k :: k in rows && k.0 == token ==> KindOf(rows[k]) == kind || KindOf(rows[k]) == KSettled
  }

  /** Keys and ids hold: rows belong to requests and message ids are unique. */
  ghost predicate KeysHold(requests: Requests, rows: Rows, owners: map<Key, string>) {
    && (forall k :: k in rows ==> k.0 in requests)
    && (forall k :: k in owners ==> k in rows)
    && (forall t, u :: t in requests && u in requests && requests[t].messageId == requests[u].messageId ==> t == u)
  }

  // ----- Cells -----

  datatype Role = SendRole(token: Token) | FanoutRole(token: Token) | VerifyRole(key: Key) | NoRole

  function RoleOf(cell: Cell<Payload>): Role {
    if cell.steps == [] then NoRole
    else match cell.steps[0].payload
      case SetupStep(q) => SendRole(q.token)
      case FanoutStep(t) => FanoutRole(t)
      case VerifyStep(key) => VerifyRole(key)
      case _ => NoRole
  }

  /** A Send sequence runs Setup, Recovery, Post; the other cells have one step. */
  predicate Shaped(cell: Cell<Payload>) {
    match RoleOf(cell)
    case SendRole(t) =>
      |cell.steps| == 3 && cell.steps[1].payload == RecoveryStep(t) && cell.steps[2].payload == PostStep(t)
    case FanoutRole(_) => |cell.steps| == 1
    case VerifyRole(_) => |cell.steps| == 1
    case NoRole => false
  }

  /** Cells are well formed and no two play the same role. */
  ghost predicate CellsSane(cells: CellMap<Payload>) {
    && WellFormed(cells)
    && (forall id :: id in cells ==> Shaped(cells[id]))
    && (forall a, b :: a in cells && b in cells && RoleOf(cells[a]) == RoleOf(cells[b]) ==> a == b)
  }

  ghost predicate NoneLive(cells: CellMap<Payload>, role: Role) {
    forall id :: id in cells ==> RoleOf(cells[id]) != role
  }

  ghost predicate SendersMatch(cells: CellMap<Payload>, senders: map<Token, CellId>) {
    && (forall t :: t in senders ==> senders[t] in cells && RoleOf(cells[senders[t]]) == SendRole(t))
    && (forall id :: id in cells && RoleOf(cells[id]).SendRole? ==>
          RoleOf(cells[id]).token in senders && senders[RoleOf(cells[id]).token] == id)
  }

  /** The verification delay of a waiting row has passed by `deadline`. */
  predicate DueBy(row: Row, deadline: Time) {
    KindOf(row) == KSettled
    || (KindOf(row) == KWaiting && row.submittedAt.Some? && row.submittedAt.value + VERIFY_DELAY <= deadline)
  }

  /** A live fanout or verify cell only meets settled rows and rows of its own round. */
  ghost predicate CellFits(requests: Requests, rows: Rows, now: Time, cell: Cell<Payload>) {
    match RoleOf(cell)
    case FanoutRole(t) =>
      && t in requests && cell.notBefore.Some? && (cell.state == Claimed ==> cell.notBefore.value <= now)
      && forall k :: k in rows && k.0 == t ==> DueBy(rows[k], cell.notBefore.value)
    case VerifyRole(key) => key in rows && DueBy(rows[key], now)
    case _ => true
  }

  ghost predicate CellsFit(requests: Requests, rows: Rows, now: Time, cells: CellMap<Payload>) {
    forall id :: id in cells ==> CellFits(requests, rows, now, cells[id])
  }

  /** While a fanout cell is live, verify cells of its token are left over from
      earlier rounds and their rows are settled. */
  ghost predicate Apart(rows: Rows, fanout: Role, verify: Role) {
    fanout.FanoutRole? && verify.VerifyRole? && verify.key.0 == fanout.token && verify.key in rows ==>
      KindOf(rows[verify.key]) == KSettled
  }

  ghost predicate FanoutApart(rows: Rows, cells: CellMap<Payload>) {
    forall a, b :: a in cells && b in cells ==> Apart(rows, RoleOf(cells[a]), RoleOf(cells[b]))
  }

  // ----- Workers -----

  /** A row in flight belongs to the claimed Post step that stamped it. */
  ghost predicate InFlightOwned(
    rows: Rows, cells: CellMap<Payload>, senders: map<Token, CellId>, phases: map<CellId, Phase>, mode: Mode)
  {
    forall k :: k in rows && KindOf(rows[k]) == KInFlight ==>
      && mode != Recovered && k.0 in senders && senders[k.0] in cells
      && cells[senders[k.0]].state == Claimed && cells[senders[k.0]].currentStep == 2
      && (senders[k.0] in phases ==> phases[senders[k.0]].PostMarked? || phases[senders[k.0]].PostAnswered?)
  }

  /** Nothing is known to be outstanding for the batch, and none of it is handled. */
  ghost predicate Sendable(log: seq<Trace>, token: Token, batch: seq<Recipient>) {
    forall r :: r in batch ==>
      !Summarise(log, (token, r)).outstanding && Summarise(log, (token, r)).handling == Untouched
  }

  /** The batch names stored rows and includes every row of the kind. */
  ghost predicate Covers(rows: Rows, token: Token, kind: Kind, batch: seq<Recipient>) {
    && (forall r :: r in batch ==> (token, r) in rows)
    && (forall k :: k in rows && k.0 == token && KindOf(rows[k]) == kind ==> k.1 in batch)
  }

  predicate HasMessage(requests: Requests, token: Token, messageId: MessageId) {
    token in requests && requests[token].messageId == messageId
  }

  ghost predicate PhaseFits(
    requests: Requests, rows: Rows, cells: CellMap<Payload>, now: Time, log: seq<Trace>, payload: Payload, phase: Phase)
  {
    match phase
    case Begun => true
    case SetupReady(_) => payload.SetupStep? && DistinctRecipients(payload.request)
    case RecoveryRead(deadline) =>
      && payload.RecoveryStep? && OnlyKind(rows, payload.token, KRecovery)
      && payload.token in requests
      && (forall k :: k in rows && k.0 == payload.token && KindOf(rows[k]) == KRecovery ==>
            rows[k].submittedAt.Some? && rows[k].submittedAt.value + VERIFY_DELAY <= deadline)
      && NoneLive(cells, FanoutRole(payload.token))
    case RecoveryClear => payload.RecoveryStep?
    case PostClear => payload.PostStep? && OnlyKind(rows, payload.token, KFresh)
    case PostRead(pending, messageId) =>
      && payload.PostStep? && OnlyKind(rows, payload.token, KFresh)
      && Covers(rows, payload.token, KFresh, pending) && NoDuplicates(pending)
      && HasMessage(requests, payload.token, messageId) && Sendable(log, payload.token, pending)
    case PostMarked(pending, messageId) =>
      && payload.PostStep? && OnlyKind(rows, payload.token, KInFlight)
      && Covers(rows, payload.token, KInFlight, pending) && NoDuplicates(pending)
      && HasMessage(requests, payload.token, messageId) && Sendable(log, payload.token, pending)
    case PostAnswered(pending, _) =>
      && payload.PostStep? && OnlyKind(rows, payload.token, KInFlight)
      && Covers(rows, payload.token, KInFlight, pending) && NoDuplicates(pending)
    case PostAccepted(pending, messageId) =>
      && payload.PostStep? && OnlyKind(rows, payload.token, KSettled)
      && HasMessage(requests, payload.token, messageId)
      && forall r :: r in pending ==>
           (payload.token, r) in rows &&
           !Summarise(log, (payload.token, r)).outstanding
           && Summarise(log, (payload.token, r)).handling == Awaiting(pending)
    case FanoutRead(waiting, ids) =>
      && payload.FanoutStep? && |ids| == |waiting| && NoDuplicates(waiting)
      && forall r :: r in waiting ==>
           (payload.token, r) in rows && NoneLive(cells, VerifyRole((payload.token, r)))
    case VerifyRead(sentAt, messageId) =>
      && payload.VerifyStep? && payload.key in rows
      && (KindOf(rows[payload.key]) == KWaiting ==> rows[payload.key].submittedAt == Some(sentAt))
      && sentAt + VERIFY_DELAY <= now
      && (Summarise(log, payload.key).latestMark.Some? ==> Summarise(log, payload.key).latestMark.value <= sentAt)
      && HasMessage(requests, payload.key.0, messageId)
    case VerifyAnswered(answer) =>
      && payload.VerifyStep? && payload.key in rows
      && (answer == NotFound && KindOf(rows[payload.key]) == KWaiting ==> !Summarise(log, payload.key).outstanding)
    case Plain(result) =>
      && !payload.SetupStep? && !payload.FanoutStep? && Storable(result) && result.newCells == [] && result.works == []
      && (payload.VerifyStep? ==> result.Complete?) && !result.Kill?
  }

  ghost predicate PhasesFit(
    requests: Requests, rows: Rows, cells: CellMap<Payload>, phases: map<CellId, Phase>, now: Time, log: seq<Trace>)
  {
    forall id :: id in phases ==>
      && id in cells && cells[id].state == Claimed && 0 <= cells[id].currentStep < |cells[id].steps|
      && PhaseFits(requests, rows, cells, now, log, CurrentPayload(cells[id]), phases[id])
  }

  // ----- Trace -----

  /** What the trace says of a recipient agrees with its row. */
  ghost predicate KeyFits(rows: Rows, now: Time, key: Key, sum: Summary) {
    && (sum.outstanding || sum.handling != Untouched || sum.latestMark.Some? ==> key in rows)
    && (key in rows ==>
          && (KindOf(rows[key]) == KFresh ==> !sum.outstanding)
          && (KindOf(rows[key]) != KSettled ==> sum.handling == Untouched)
          && (sum.latestMark.Some? && KindOf(rows[key]) != KSettled && KindOf(rows[key]) != KFresh ==>
                rows[key].submittedAt.Some? && sum.latestMark.value <= rows[key].submittedAt.value))
    && (sum.latestMark.Some? ==> sum.latestMark.value <= now)
  }

  ghost predicate TraceFits(requests: Requests, rows: Rows, now: Time, log: seq<Trace>) {
    && Lawful(log)
    && (forall key: Key :: KeyFits(rows, now, key, Summarise(log, key)))
    && (forall t :: MessageOf(log, t).Some? ==> HasMessage(requests, t, MessageOf(log, t).value))
  }

  ghost predicate DataFits(requests: Requests, rows: Rows, owners: map<Key, string>) {
    RowsSane(rows) && Harmonious(rows) && KeysHold(requests, rows, owners)
  }

  ghost predicate StructureFits(
    requests: Requests, rows: Rows, now: Time, cells: CellMap<Payload>, senders: map<Token, CellId>)
  {
    && CellsSane(cells) && SendersMatch(cells, senders)
    && CellsFit(requests, rows, now, cells) && FanoutApart(rows, cells)
  }

  ghost predicate Inv(s: Sys) {
    && DataFits(s.db.requests, s.db.progress, s.db.owners)
    && StructureFits(s.db.requests, s.db.progress, s.now, s.cells, s.senders)
    && InFlightOwned(s.db.progress, s.cells, s.senders, s.phases, s.mode)
    && PhasesFit(s.db.requests, s.db.progress, s.cells, s.phases, s.now, s.log)
    && (s.mode != Up ==> s.phases == map[])
    && TraceFits(s.db.requests, s.db.progress, s.now, s.log)
  }

  // ----- Changes that only settle rows -----

  /** Every row keeps its submission time and either its kind or becomes settled. */
  ghost predicate Settles(rows: Rows, after: Rows) {
    && after.Keys == rows.Keys
    && forall k :: k in rows ==>
         && after[k].submittedAt == rows[k].submittedAt
         && (KindOf(after[k]) == KindOf(rows[k]) || KindOf(after[k]) == KSettled)
  }

  lemma PhaseSettles(
    requests: Requests, rows: Rows, after: Rows, cells: CellMap<Payload>, now: Time, log: seq<Trace>,
    payload: Payload, phase: Phase)
    requires Settles(rows, after) && PhaseFits(requests, rows, cells, now, log, payload, phase)
    ensures PhaseFits(requests, after, cells, now, log, payload, phase)
  {
  }

  lemma CellsSettle(requests: Requests, rows: Rows, after: Rows, now: Time, cells: CellMap<Payload>)
    requires Settles(rows, after) && CellsFit(requests, rows, now, cells) && FanoutApart(rows, cells)
    ensures CellsFit(requests, after, now, cells) && FanoutApart(after, cells)
  {
    forall id | id in cells ensures CellFits(requests, after, now, cells[id]) {
      assert CellFits(requests, rows, now, cells[id]);
    }
  }

  lemma TraceSettles(requests: Requests, rows: Rows, after: Rows, now: Time, log: seq<Trace>)
    requires Settles(rows, after) && TraceFits(requests, rows, now, log)
    ensures TraceFits(requests, after, now, log)
  {
    forall key: Key ensures KeyFits(after, now, key, Summarise(log, key)) {
      assert KeyFits(rows, now, key, Summarise(log, key));
    }
  }

  lemma PhasesSettle(
    requests: Requests, rows: Rows, after: Rows, cells: CellMap<Payload>, phases: map<CellId, Phase>, now: Time,
    log: seq<Trace>)
    requires Settles(rows, after) && PhasesFit(requests, rows, cells, phases, now, log)
    ensures PhasesFit(requests, after, cells, phases, now, log)
  {
    forall id | id in phases
      ensures PhaseFits(requests, after, cells, now, log, CurrentPayload(cells[id]), phases[id])
    {
      PhaseSettles(requests, rows, after, cells, now, log, CurrentPayload(cells[id]), phases[id]);
    }
  }

  lemma DataSettles(requests: Requests, rows: Rows, after: Rows, owners: map<Key, string>)
    requires Settles(rows, after) && RowsSane(after) && DataFits(requests, rows, owners)
    ensures DataFits(requests, after, owners)
  {
  }

  lemma InFlightSettles(
    rows: Rows, after: Rows, cells: CellMap<Payload>, senders: map<Token, CellId>, phases: map<CellId, Phase>, mode: Mode)
    requires Settles(rows, after) && InFlightOwned(rows, cells, senders, phases, mode)
    ensures InFlightOwned(after, cells, senders, phases, mode)
  {
  }

  lemma SettlingKeepsInv(s: Sys, after: Rows)
    requires Inv(s) && Settles(s.db.progress, after) && RowsSane(after)
    ensures Inv(s.(db := s.db.(progress := after)))
  {
    DataSettles(s.db.requests, s.db.progress, after, s.db.owners);
    CellsSettle(s.db.requests, s.db.progress, after, s.now, s.cells);
    InFlightSettles(s.db.progress, after, s.cells, s.senders, s.phases, s.mode);
    TraceSettles(s.db.requests, s.db.progress, after, s.now, s.log);
    PhasesSettle(s.db.requests, s.db.progress, after, s.cells, s.phases, s.now, s.log);
  }

  // ----- A worker gives up or moves on -----

  lemma DroppingKeepsInv(s: Sys, id: CellId)
    requires Inv(s)
    ensures Inv(s.(phases := s.phases - {id}))
  {
  }

  lemma MovingKeepsInFlight(
    rows: Rows, cells: CellMap<Payload>, senders: map<Token, CellId>, phases: map<CellId, Phase>, mode: Mode,
    id: CellId, phase: Phase)
    requires InFlightOwned(rows, cells, senders, phases, mode) && id in phases
    requires phases[id].PostMarked? || phases[id].PostAnswered? ==> phase.PostMarked? || phase.PostAnswered?
    ensures InFlightOwned(rows, cells, senders, phases[id := phase], mode)
  {
  }

  lemma MovingKeepsInv(s: Sys, id: CellId, phase: Phase)
    requires Inv(s) && Working(s, id)
    requires PhaseFits(s.db.requests, s.db.progress, s.cells, s.now, s.log, CurrentPayload(s.cells[id]), phase)
    requires !s.phases[id].PostMarked? && !s.phases[id].PostAnswered?
    ensures Inv(s.(phases := s.phases[id := phase]))
  {
    MovingKeepsInFlight(s.db.progress, s.cells, s.senders, s.phases, s.mode, id, phase);
  }

  // ----- Releasing a claimed cell -----

  /** Cell `id` goes away, or becomes ready again if it is a Send sequence. */
  ghost predicate Released(before: CellMap<Payload>, after: CellMap<Payload>, id: CellId) {
    && id in before && after.Keys <= before.Keys && before.Keys <= after.Keys + {id}
    && (forall o :: o in after && o != id ==> after[o] == before[o])
    && (id in after ==>
          && RoleOf(before[id]).SendRole? && after[id].id == id && after[id].steps == before[id].steps
          && after[id].state == Ready && 0 <= after[id].currentStep < |after[id].steps|)
  }

  /** Every cell left plays the role it played before. */
  ghost predicate SameRoles(before: CellMap<Payload>, after: CellMap<Payload>) {
    forall o :: o in after ==> o in before && RoleOf(after[o]) == RoleOf(before[o])
  }

  lemma ReleaseKeepsRoles(before: CellMap<Payload>, after: CellMap<Payload>, id: CellId)
    requires Released(before, after, id)
    ensures SameRoles(before, after)
  {
  }

  lemma ReleaseKeepsSane(before: CellMap<Payload>, after: CellMap<Payload>, id: CellId)
    requires CellsSane(before) && Released(before, after, id) && SameRoles(before, after)
    ensures CellsSane(after)
  {
    forall o | o in after ensures Shaped(after[o]) { assert Shaped(before[o]); }
  }

  lemma ReleaseKeepsSenders(
    before: CellMap<Payload>, after: CellMap<Payload>, senders: map<Token, CellId>, id: CellId)
    requires SendersMatch(before, senders) && Released(before, after, id) && SameRoles(before, after)
    ensures SendersMatch(after, SendersAfter(senders, after))
  {
  }

  lemma ReleaseKeepsFit(
    requests: Requests, rows: Rows, now: Time, before: CellMap<Payload>, after: CellMap<Payload>, id: CellId)
    requires CellsFit(requests, rows, now, before) && FanoutApart(rows, before)
    requires Released(before, after, id) && SameRoles(before, after)
    ensures CellsFit(requests, rows, now, after) && FanoutApart(rows, after)
  {
    forall o | o in after ensures CellFits(requests, rows, now, after[o]) {
      assert CellFits(requests, rows, now, before[o]);
    }
    forall a, b | a in after && b in after ensures Apart(rows, RoleOf(after[a]), RoleOf(after[b])) {
      assert Apart(rows, RoleOf(before[a]), RoleOf(before[b]));
    }
  }

  lemma ReleaseKeepsPhases(
    requests: Requests, rows: Rows, before: CellMap<Payload>, after: CellMap<Payload>, phases: map<CellId, Phase>,
    now: Time, log: seq<Trace>, id: CellId)
    requires PhasesFit(requests, rows, before, phases, now, log) && id !in phases
    requires Released(before, after, id) && SameRoles(before, after)
    ensures PhasesFit(requests, rows, after, phases, now, log)
  {
    forall o | o in phases ensures PhaseFits(requests, rows, after, now, log, CurrentPayload(after[o]), phases[o]) {
      PhaseIgnoresReleases(requests, rows, before, after, now, log, CurrentPayload(before[o]), phases[o]);
    }
  }

  lemma PhaseIgnoresReleases(
    requests: Requests, rows: Rows, before: CellMap<Payload>, after: CellMap<Payload>, now: Time, log: seq<Trace>,
    payload: Payload, phase: Phase)
    requires PhaseFits(requests, rows, before, now, log, payload, phase) && SameRoles(before, after)
    ensures PhaseFits(requests, rows, after, now, log, payload, phase)
  {
  }

  lemma ReleaseKeepsInFlight(
    rows: Rows, before: CellMap<Payload>, after: CellMap<Payload>, senders: map<Token, CellId>,
    phases: map<CellId, Phase>, mode: Mode, id: CellId)
    requires InFlightOwned(rows, before, senders, phases, mode) && Released(before, after, id)
    requires SendersMatch(before, senders)
    requires RoleOf(before[id]).SendRole? ==>
      forall k :: k in rows && k.0 == RoleOf(before[id]).token ==> KindOf(rows[k]) != KInFlight
    ensures InFlightOwned(rows, after, SendersAfter(senders, after), phases, mode)
  {
  }

  lemma ReleasingKeepsInv(s: Sys, after: CellMap<Payload>, id: CellId)
    requires Inv(s) && Released(s.cells, after, id) && id !in s.phases
    requires RoleOf(s.cells[id]).SendRole? ==>
      forall k :: k in s.db.progress && k.0 == RoleOf(s.cells[id]).token ==> KindOf(s.db.progress[k]) != KInFlight
    ensures Inv(s.(cells := after, senders := SendersAfter(s.senders, after)))
  {
    ReleaseKeepsRoles(s.cells, after, id);
    ReleaseKeepsSane(s.cells, after, id);
    ReleaseKeepsSenders(s.cells, after, s.senders, id);
    ReleaseKeepsFit(s.db.requests, s.db.progress, s.now, s.cells, after, id);
    ReleaseKeepsPhases(s.db.requests, s.db.progress, s.cells, after, s.phases, s.now, s.log, id);
    ReleaseKeepsInFlight(s.db.progress, s.cells, after, s.senders, s.phases, s.mode, id);
  }

  // ----- Adding cells -----

  /** `after` adds one cell playing a role nobody plays yet. */
  ghost predicate Adds(before: CellMap<Payload>, after: CellMap<Payload>, cell: Cell<Payload>) {
    && cell.id !in before && after == before[cell.id := cell]
    && Shaped(cell) && 0 <= cell.currentStep < |cell.steps| && NoneLive(before, RoleOf(cell))
  }

  lemma AddingKeepsSane(before: CellMap<Payload>, after: CellMap<Payload>, cell: Cell<Payload>)
    requires CellsSane(before) && Adds(before, after, cell)
    ensures CellsSane(after)
  {
    forall a, b | a in after && b in after && a != b ensures RoleOf(after[a]) != RoleOf(after[b]) {
      if a == cell.id {
        assert RoleOf(before[b]) != RoleOf(cell);
      } else if b == cell.id {
        assert RoleOf(before[a]) != RoleOf(cell);
      }
    }
  }

  lemma AddingKeepsSenders(before: CellMap<Payload>, after: CellMap<Payload>, senders: map<Token, CellId>, cell: Cell<Payload>)
    requires SendersMatch(before, senders) && Adds(before, after, cell)
    ensures !RoleOf(cell).SendRole? ==> SendersMatch(after, senders)
    ensures RoleOf(cell).SendRole? ==> SendersMatch(after, senders[RoleOf(cell).token := cell.id])
  {
  }

  lemma AddingKeepsFit(
    requests: Requests, rows: Rows, now: Time, before: CellMap<Payload>, after: CellMap<Payload>, cell: Cell<Payload>)
    requires CellsFit(requests, rows, now, before) && FanoutApart(rows, before) && Adds(before, after, cell)
    requires CellFits(requests, rows, now, cell)
    requires forall o :: o in before ==> Apart(rows, RoleOf(cell), RoleOf(before[o])) && Apart(rows, RoleOf(before[o]), RoleOf(cell))
    ensures CellsFit(requests, rows, now, after) && FanoutApart(rows, after)
  {
    forall o | o in after ensures CellFits(requests, rows, now, after[o]) {
      assert o != cell.id ==> CellFits(requests, rows, now, before[o]);
    }
    forall a, b | a in after && b in after ensures Apart(rows, RoleOf(after[a]), RoleOf(after[b])) {
      if a != cell.id && b != cell.id { assert Apart(rows, RoleOf(before[a]), RoleOf(before[b])); }
    }
  }

  /** A new cell disturbs only the worker that relies on its absence. */
  lemma AddingKeepsPhases(
    requests: Requests, rows: Rows, before: CellMap<Payload>, after: CellMap<Payload>, phases: map<CellId, Phase>,
    now: Time, log: seq<Trace>, cell: Cell<Payload>)
    requires PhasesFit(requests, rows, before, phases, now, log) && Adds(before, after, cell)
    requires RoleOf(cell).FanoutRole? ==> forall o :: o in phases && phases[o].RecoveryRead? ==>
      CurrentPayload(before[o]) != RecoveryStep(RoleOf(cell).token)
    requires RoleOf(cell).VerifyRole? ==> forall o :: o in phases && phases[o].FanoutRead? ==>
      CurrentPayload(before[o]) != FanoutStep(RoleOf(cell).key.0)
    ensures PhasesFit(requests, rows, after, phases, now, log)
  {
    forall o | o in phases ensures PhaseFits(requests, rows, after, now, log, CurrentPayload(after[o]), phases[o]) {
      assert PhaseFits(requests, rows, before, now, log, CurrentPayload(before[o]), phases[o]);
    }
  }

  lemma AddingKeepsInv(s: Sys, after: CellMap<Payload>, cell: Cell<Payload>)
    requires Inv(s) && Adds(s.cells, after, cell) && !RoleOf(cell).SendRole?
    requires CellFits(s.db.requests, s.db.progress, s.now, cell)
    requires forall o :: o in s.cells ==>
      Apart(s.db.progress, RoleOf(cell), RoleOf(s.cells[o])) && Apart(s.db.progress, RoleOf(s.cells[o]), RoleOf(cell))
    requires RoleOf(cell).FanoutRole? ==> forall o :: o in s.phases && s.phases[o].RecoveryRead? ==>
      CurrentPayload(s.cells[o]) != RecoveryStep(RoleOf(cell).token)
    requires RoleOf(cell).VerifyRole? ==> forall o :: o in s.phases && s.phases[o].FanoutRead? ==>
      CurrentPayload(s.cells[o]) != FanoutStep(RoleOf(cell).key.0)
    ensures Inv(s.(cells := after))
  {
    AddingKeepsSane(s.cells, after, cell);
    AddingKeepsSenders(s.cells, after, s.senders, cell);
    AddingKeepsFit(s.db.requests, s.db.progress, s.now, s.cells, after, cell);
    AddingKeepsPhases(s.db.requests, s.db.progress, s.cells, after, s.phases, s.now, s.log, cell);
  }

  // ----- Changing the rows of one token -----

  function PayloadToken(payload: Payload): Token {
    match payload
    case SetupStep(q) => q.token
    case VerifyStep(key) => key.0
    case _ => payload.token
  }

  /** The phases of a Send sequence that rely on no row. */
  predicate Detached(phase: Phase) {
    phase.Begun? || phase.SetupReady? || phase.RecoveryClear? || phase.Plain?
  }

  /** Only rows of `token` differ, and none disappears. */
  ghost predicate OnlyToken(rows: Rows, after: Rows, token: Token) {
    && rows.Keys <= after.Keys
    && (forall k :: k in after && k.0 != token ==> k in rows && after[k] == rows[k])
  }

  lemma PhaseElsewhere(
    requests: Requests, rows: Rows, after: Rows, cells: CellMap<Payload>, now: Time, log: seq<Trace>, token: Token,
    payload: Payload, phase: Phase)
    requires PhaseFits(requests, rows, cells, now, log, payload, phase) && OnlyToken(rows, after, token)
    requires
      || PayloadToken(payload) != token
      || Detached(phase)
      || phase.FanoutRead?
      || (payload.VerifyStep? && payload.key in rows && after[payload.key] == rows[payload.key])
    ensures PhaseFits(requests, after, cells, now, log, payload, phase)
  {
  }

  /** Workers that rely on rows of the token are absent, or watch an unchanged row. */
  ghost predicate Undisturbed(rows: Rows, after: Rows, cells: CellMap<Payload>, phases: map<CellId, Phase>, token: Token) {
    forall o :: o in phases && o in cells && 0 <= cells[o].currentStep < |cells[o].steps| ==>
      var payload := CurrentPayload(cells[o]);
      || PayloadToken(payload) != token
      || Detached(phases[o])
      || phases[o].FanoutRead?
      || (payload.VerifyStep? && payload.key in rows && payload.key in after && after[payload.key] == rows[payload.key])
  }

  lemma RowsKeepPhases(
    requests: Requests, rows: Rows, after: Rows, cells: CellMap<Payload>, phases: map<CellId, Phase>, now: Time,
    log: seq<Trace>, token: Token)
    requires PhasesFit(requests, rows, cells, phases, now, log)
    requires OnlyToken(rows, after, token) && Undisturbed(rows, after, cells, phases, token)
    ensures PhasesFit(requests, after, cells, phases, now, log)
  {
    forall o | o in phases ensures PhaseFits(requests, after, cells, now, log, CurrentPayload(cells[o]), phases[o]) {
      PhaseElsewhere(requests, rows, after, cells, now, log, token, CurrentPayload(cells[o]), phases[o]);
    }
  }

  /** A live fanout or verify cell sees nothing of the change. */
  ghost predicate CellsUnaffected(rows: Rows, after: Rows, cells: CellMap<Payload>, token: Token) {
    && (forall id :: id in cells && RoleOf(cells[id]) == FanoutRole(token) ==>
          forall k :: k in after && k.0 == token ==> k in rows && after[k] == rows[k])
    && (forall id :: id in cells && RoleOf(cells[id]).VerifyRole? && RoleOf(cells[id]).key.0 == token ==>
          RoleOf(cells[id]).key in rows && RoleOf(cells[id]).key in after
          && after[RoleOf(cells[id]).key] == rows[RoleOf(cells[id]).key])
  }

  lemma RowsKeepFit(requests: Requests, rows: Rows, after: Rows, now: Time, cells: CellMap<Payload>, token: Token)
    requires CellsFit(requests, rows, now, cells) && FanoutApart(rows, cells)
    requires OnlyToken(rows, after, token) && CellsUnaffected(rows, after, cells, token)
    ensures CellsFit(requests, after, now, cells) && FanoutApart(after, cells)
  {
    forall id | id in cells ensures CellFits(requests, after, now, cells[id]) {
      assert CellFits(requests, rows, now, cells[id]);
    }
    forall a, b | a in cells && b in cells ensures Apart(after, RoleOf(cells[a]), RoleOf(cells[b])) {
      assert Apart(rows, RoleOf(cells[a]), RoleOf(cells[b]));
      assert CellFits(requests, rows, now, cells[b]);
    }
  }

  lemma RowsKeepTrace(requests: Requests, rows: Rows, after: Rows, now: Time, log: seq<Trace>, token: Token)
    requires TraceFits(requests, rows, now, log) && OnlyToken(rows, after, token)
    requires forall k :: k in after && k.0 == token ==> KeyFits(after, now, k, Summarise(log, k))
    ensures TraceFits(requests, after, now, log)
  {
    forall key: Key ensures KeyFits(after, now, key, Summarise(log, key)) {
      assert KeyFits(rows, now, key, Summarise(log, key));
    }
  }

  lemma RowChangeKeepsInv(s: Sys, after: Rows, token: Token)
    requires Inv(s) && OnlyToken(s.db.progress, after, token)
    requires DataFits(s.db.requests, after, s.db.owners)
    requires CellsUnaffected(s.db.progress, after, s.cells, token)
    requires Undisturbed(s.db.progress, after, s.cells, s.phases, token)
    requires InFlightOwned(after, s.cells, s.senders, s.phases, s.mode)
    requires forall k :: k in after && k.0 == token ==> KeyFits(after, s.now, k, Summarise(s.log, k))
    ensures Inv(s.(db := s.db.(progress := after)))
  {
    RowsKeepPhases(s.db.requests, s.db.progress, after, s.cells, s.phases, s.now, s.log, token);
    RowsKeepFit(s.db.requests, s.db.progress, after, s.now, s.cells, token);
    RowsKeepTrace(s.db.requests, s.db.progress, after, s.now, s.log, token);
  }

  // ----- Extending the trace -----

  /** The event leaves what a worker relies on in place. */
  ghost predicate Tolerates(rows: Rows, log: seq<Trace>, e: Trace, payload: Payload, phase: Phase) {
    && (phase.PostRead? || phase.PostMarked? || phase.PostAccepted? ==>
          e.Verified? || TokenOf(e) != PayloadToken(payload))
    && (phase.VerifyRead? && payload.VerifyStep? ==>
          Absorb(Summarise(log, payload.key), payload.key, e).latestMark == Summarise(log, payload.key).latestMark)
    && (phase.VerifyAnswered? && payload.VerifyStep? && payload.key in rows && KindOf(rows[payload.key]) == KWaiting ==>
          !(e.Mailed? && Includes(e.token, e.recipients, payload.key)))
  }

  lemma PhaseAbsorbs(
    requests: Requests, rows: Rows, cells: CellMap<Payload>, now: Time, log: seq<Trace>, e: Trace,
    payload: Payload, phase: Phase)
    requires PhaseFits(requests, rows, cells, now, log, payload, phase) && Tolerates(rows, log, e, payload, phase)
    ensures PhaseFits(requests, rows, cells, now, log + [e], payload, phase)
  {
    Extended(log, e);
  }

  lemma EventKeepsPhases(
    requests: Requests, rows: Rows, cells: CellMap<Payload>, phases: map<CellId, Phase>, now: Time, log: seq<Trace>, e: Trace)
    requires PhasesFit(requests, rows, cells, phases, now, log)
    requires forall o :: o in phases ==> Tolerates(rows, log, e, CurrentPayload(cells[o]), phases[o])
    ensures PhasesFit(requests, rows, cells, phases, now, log + [e])
  {
    forall o | o in phases
      ensures PhaseFits(requests, rows, cells, now, log + [e], CurrentPayload(cells[o]), phases[o])
    {
      PhaseAbsorbs(requests, rows, cells, now, log, e, CurrentPayload(cells[o]), phases[o]);
    }
  }

  lemma EventKeepsTrace(requests: Requests, rows: Rows, now: Time, log: seq<Trace>, e: Trace)
    requires TraceFits(requests, rows, now, log) && Respects(log, e)
    requires forall key: Key :: KeyFits(rows, now, key, Absorb(Summarise(log, key), key, e))
    requires e.Mailed? || e.Verified? ==> HasMessage(requests, TokenOf(e), e.messageId)
    ensures TraceFits(requests, rows, now, log + [e])
  {
    Extended(log, e);
  }

  lemma EventKeepsInv(s: Sys, e: Trace)
    requires Inv(s) && Respects(s.log, e)
    requires forall o :: o in s.phases ==> Tolerates(s.db.progress, s.log, e, CurrentPayload(s.cells[o]), s.phases[o])
    requires forall key: Key :: KeyFits(s.db.progress, s.now, key, Absorb(Summarise(s.log, key), key, e))
    requires e.Mailed? || e.Verified? ==> HasMessage(s.db.requests, TokenOf(e), e.messageId)
    ensures Inv(s.(log := s.log + [e]))
  {
    EventKeepsPhases(s.db.requests, s.db.progress, s.cells, s.phases, s.now, s.log, e);
    EventKeepsTrace(s.db.requests, s.db.progress, s.now, s.log, e);
  }

  // ----- A worker resumes -----

  lemma ResumingKeepsInv(s: Sys, id: CellId, phase: Phase)
    requires Inv(s) && s.mode == Up && id !in s.phases && id in s.cells && s.cells[id].state == Claimed
    requires 0 <= s.cells[id].currentStep < |s.cells[id].steps|
    requires PhaseFits(s.db.requests, s.db.progress, s.cells, s.now, s.log, CurrentPayload(s.cells[id]), phase)
    requires
      || phase.PostMarked? || phase.PostAnswered?
      || (forall k :: k in s.db.progress && RoleOf(s.cells[id]) == SendRole(k.0) ==> KindOf(s.db.progress[k]) != KInFlight)
    ensures Inv(s.(phases := s.phases[id := phase]))
  {
    ResumingKeepsInFlight(s.db.progress, s.cells, s.senders, s.phases, s.mode, id, phase);
  }

  lemma ResumingKeepsInFlight(
    rows: Rows, cells: CellMap<Payload>, senders: map<Token, CellId>, phases: map<CellId, Phase>, mode: Mode,
    id: CellId, phase: Phase)
    requires InFlightOwned(rows, cells, senders, phases, mode) && id in cells && SendersMatch(cells, senders)
    requires
      || phase.PostMarked? || phase.PostAnswered?
      || (forall k :: k in rows && RoleOf(cells[id]) == SendRole(k.0) ==> KindOf(rows[k]) != KInFlight)
    ensures InFlightOwned(rows, cells, senders, phases[id := phase], mode)
  {
  }
}

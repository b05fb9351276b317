/** The durable email tables: one immutable request row per token, one progress
    row per (token, recipient), ownership rows and an append-only event table.

    The functions give the effect of each SQL statement or transaction on the
    tables; the class holds the tables and its methods are proved to have exactly
    those effects. */
module EmailStore {
  import opened Basics
  import opened EmailEvents

  type Token = string
  type Recipient = string
  type MessageId = string
  type Pmuid = string

  /** Primary key of a progress row. */
  type Key = (Token, Recipient)

  datatype Row = Row(name: string, variables: string, state: RowState, submittedAt: Option<Time>, pmuid: Option<Pmuid>)

  type Rows = map<Key, Row>

  /** The operation-wide part of a request; the three maps are kept as JSON values. */
  datatype Content = Content(
    senderEmail: string, senderName: string, subject: string, templateId: string, text: string,
    variables: string, headers: string, metadata: string)

  datatype SendRecipient = SendRecipient(userId: string, email: Recipient, name: string, variables: string)

  datatype SendRequest = SendRequest(token: Token, content: Content, recipients: seq<SendRecipient>)

  datatype StoredRequest = StoredRequest(messageId: MessageId, content: Content)

  datatype RecordedEvent = RecordedEvent(key: Key, event: DeliveryEvent, at: Time)

  datatype Database = Database(
    requests: map<Token, StoredRequest>, progress: Rows, owners: map<Key, string>, events: seq<RecordedEvent>)

  datatype EmailError =
    | ConflictingRequest | ConflictingRecipients | DuplicateRecipient | MessageIdTaken | RowTaken
    | NoLongerPending | UnknownRecipient

  // ----- Effects of the statements -----

  /** UPDATE ... WHERE state = Pending AND submitted_at IS NOT NULL, over all tokens. */
  function RecoverSubmissions(rows: Rows): Rows {
    map k | k in rows ::
      if rows[k].state == Pending && rows[k].submittedAt.Some? then rows[k].(state := Recovery) else rows[k]
  }

  function MarkSubmitted(rows: Rows, token: Token, at: Time): Rows {
    map k | k in rows ::
      if k.0 == token && rows[k].state == Pending then rows[k].(submittedAt := Some(at)) else rows[k]
  }

  function RecoverWork(rows: Rows, token: Token): Rows {
    map k | k in rows ::
      if k.0 == token && rows[k].state == Pending && rows[k].submittedAt.Some?
      then rows[k].(state := Recovery) else rows[k]
  }

  function WaitWork(rows: Rows, token: Token): Rows {
    map k | k in rows ::
      if k.0 == token && rows[k].state == Recovery then rows[k].(state := RecoveryWaiting) else rows[k]
  }

  function AbsentWork(rows: Rows, key: Key): Rows {
    map k | k in rows ::
      if k == key && rows[k].state == RecoveryWaiting
      then rows[k].(state := Pending, submittedAt := None) else rows[k]
  }

  /** States in which a late provider answer may still be recorded, besides `from`. */
  predicate RecordsPmuid(state: RowState, from: RowState) {
    state == from || state == Accepted || state == Sent || state == Delivered || state == Opened
    || state == Clicked || state == SpamComplaint || state == HardBounced
  }

  function AcceptRow(row: Row, from: RowState, pmuid: Pmuid): Row {
    if RecordsPmuid(row.state, from) then
      row.(state := if row.state == from then Accepted else row.state,
           pmuid := if row.pmuid.Some? then row.pmuid else Some(pmuid))
    else row
  }

  function AcceptFrom(rows: Rows, key: Key, from: RowState, pmuid: Pmuid): Rows {
    map k | k in rows :: if k == key then AcceptRow(rows[k], from, pmuid) else rows[k]
  }

  /** Acceptance reported by Send. */
  function AcceptWork(rows: Rows, key: Key, pmuid: Pmuid): Rows { AcceptFrom(rows, key, Pending, pmuid) }

  /** Acceptance found by Verify. */
  function AcceptRecoveredWork(rows: Rows, key: Key, pmuid: Pmuid): Rows {
    AcceptFrom(rows, key, RecoveryWaiting, pmuid)
  }

  function Decimal(n: nat): string {
    if n < 10 then ["0123456789"[n]] else Decimal(n / 10) + ["0123456789"[n % 10]]
  }

  /** The synthetic identifier of a best-effort acceptance. */
  function SuppressedId(messageId: MessageId, index: nat): Pmuid {
    "suppressed:" + messageId + ":" + Decimal(index)
  }

  /** The outcome of the last submission is not known yet. */
  predicate Unresolved(row: Row) { row.state == Recovery || row.state == RecoveryWaiting }

  /** Pending, with a submission possibly under way. */
  predicate Stamped(row: Row) { row.state == Pending && row.submittedAt.Some? }

  predicate Fresh(row: Row) { row.state == Pending && row.submittedAt.None? }

  /** The tables after accepting list[from..], or None when some recipient is no
      longer pending and unsubmitted. */
  function AcceptBestEffort(rows: Rows, token: Token, messageId: MessageId, list: seq<Recipient>, from: nat): Option<Rows>
    requires from <= |list|
    decreases |list| - from
  {
    if from == |list| then Some(rows)
    else
      var key := (token, list[from]);
      if key in rows && Fresh(rows[key]) then
        AcceptBestEffort(rows[key := rows[key].(state := Accepted, pmuid := Some(SuppressedId(messageId, from)))],
                         token, messageId, list, from + 1)
      else None
  }

  ghost predicate AllFresh(rows: Rows, token: Token, list: seq<Recipient>, from: nat) {
    forall i :: from <= i < |list| ==> (token, list[i]) in rows && Fresh(rows[(token, list[i])])
  }

  ghost predicate DistinctFrom(list: seq<Recipient>, from: nat) {
    forall i, j :: from <= i < j < |list| ==> list[i] != list[j]
  }

  predicate ListedFrom(token: Token, list: seq<Recipient>, from: nat, key: Key) {
    key.0 == token && exists i :: from <= i < |list| && list[i] == key.1
  }

  /** Acceptance is all or nothing: it succeeds exactly when the listed
      recipients are distinct, pending and unsubmitted. */
  lemma {:induction false} AcceptBestEffortAllOrNothing(
    rows: Rows, token: Token, messageId: MessageId, list: seq<Recipient>, from: nat)
    requires from <= |list|
    ensures AcceptBestEffort(rows, token, messageId, list, from).Some?
      <==> AllFresh(rows, token, list, from) && DistinctFrom(list, from)
    decreases |list| - from
  {
    if from < |list| {
      var key := (token, list[from]);
      if key in rows && Fresh(rows[key]) {
        var next := rows[key := rows[key].(state := Accepted, pmuid := Some(SuppressedId(messageId, from)))];
        AcceptBestEffortAllOrNothing(next, token, messageId, list, from + 1);
        if AllFresh(next, token, list, from + 1) && DistinctFrom(list, from + 1) {
          assert forall i :: from < i < |list| ==> (token, list[i]) in next && (token, list[i]) != key;
        }
      }
    }
  }

  lemma {:induction false} AcceptBestEffortKeeps(
    rows: Rows, token: Token, messageId: MessageId, list: seq<Recipient>, from: nat)
    requires from <= |list| && AcceptBestEffort(rows, token, messageId, list, from).Some?
    ensures var out := AcceptBestEffort(rows, token, messageId, list, from).value;
      out.Keys == rows.Keys && forall k :: k in rows && !ListedFrom(token, list, from, k) ==> out[k] == rows[k]
    decreases |list| - from
  {
    if from < |list| {
      var key := (token, list[from]);
      var next := rows[key := rows[key].(state := Accepted, pmuid := Some(SuppressedId(messageId, from)))];
      AcceptBestEffortKeeps(next, token, messageId, list, from + 1);
      assert ListedFrom(token, list, from, key);
    }
  }

  /** Then every listed recipient is accepted under its own synthetic
      identifier, and no other row moves. */
  lemma {:induction false} AcceptBestEffortContents(
    rows: Rows, token: Token, messageId: MessageId, list: seq<Recipient>, from: nat)
    requires from <= |list| && AcceptBestEffort(rows, token, messageId, list, from).Some?
    ensures var out := AcceptBestEffort(rows, token, messageId, list, from).value;
      && out.Keys == rows.Keys
      && (forall k :: k in rows && !ListedFrom(token, list, from, k) ==> out[k] == rows[k])
      && (forall i :: from <= i < |list| ==>
            var k := (token, list[i]);
            k in rows && Fresh(rows[k])
            && out[k] == rows[k].(state := Accepted, pmuid := Some(SuppressedId(messageId, i))))
    decreases |list| - from
  {
    if from < |list| {
      var key := (token, list[from]);
      var next := rows[key := rows[key].(state := Accepted, pmuid := Some(SuppressedId(messageId, from)))];
      AcceptBestEffortAllOrNothing(rows, token, messageId, list, from);
      AcceptBestEffortContents(next, token, messageId, list, from + 1);
      AcceptBestEffortKeeps(rows, token, messageId, list, from);
      AcceptBestEffortKeeps(next, token, messageId, list, from + 1);
      assert !ListedFrom(token, list, from + 1, key);
    }
  }

  /** A crash after the stamp loses nothing: recovering then turns exactly the rows
      that were pending for the token, and rows stamped before, into recovery rows,
      each with its submission time. */
  lemma StampSurvivesCrash(rows: Rows, token: Token, at: Time, k: Key)
    requires k in rows
    ensures var after := RecoverSubmissions(MarkSubmitted(rows, token, at));
      && after.Keys == rows.Keys
      && (rows[k].state == Pending && (k.0 == token || Stamped(rows[k])) <==>
            after[k].state == Recovery && rows[k].state != Recovery)
      && (rows[k].state == Pending && k.0 == token ==> after[k].submittedAt == Some(at))
      && (!(rows[k].state == Pending && k.0 == token) ==> after[k].submittedAt == rows[k].submittedAt)
      && RecoverSubmissions(after) == after
  {
  }

  // ----- Setup -----

  ghost predicate DistinctRecipients(q: SendRequest) {
    forall i, j :: 0 <= i < j < |q.recipients| ==> q.recipients[i].email != q.recipients[j].email
  }

  function Emails(q: SendRequest): set<Recipient> {
    set i | 0 <= i < |q.recipients| :: q.recipients[i].email
  }

  function OwnerOf(owners: map<Key, string>, key: Key): string {
    if key in owners then owners[key] else ""
  }

  /** The stored recipient is the one the request names. */
  predicate SameRecipient(db: Database, token: Token, r: SendRecipient) {
    var key := (token, r.email);
    && key in db.progress
    && db.progress[key].name == r.name && db.progress[key].variables == r.variables
    && OwnerOf(db.owners, key) == r.userId
  }

  /** The token's stored rows describe exactly this request. */
  ghost predicate Stored(db: Database, q: SendRequest) {
    && q.token in db.requests && db.requests[q.token].content == q.content
    && (forall i :: 0 <= i < |q.recipients| ==> SameRecipient(db, q.token, q.recipients[i]))
    && (forall k :: k in db.progress && k.0 == q.token ==> k.1 in Emails(q))
  }

  function NewRow(r: SendRecipient): Row { Row(r.name, r.variables, Pending, None, None) }

  /** The progress rows after inserting recipients[from..] of a new request. */
  function InsertRows(rows: Rows, q: SendRequest, from: nat): Rows
    requires from <= |q.recipients|
    decreases |q.recipients| - from
  {
    if from == |q.recipients| then rows
    else InsertRows(rows[(q.token, q.recipients[from].email) := NewRow(q.recipients[from])], q, from + 1)
  }

  function WithOwner(owners: map<Key, string>, token: Token, r: SendRecipient): map<Key, string> {
    if r.userId != "" then owners[(token, r.email) := r.userId] else owners
  }

  /** The ownership rows after inserting recipients[from..]; unowned recipients get none. */
  function InsertOwners(owners: map<Key, string>, q: SendRequest, from: nat): map<Key, string>
    requires from <= |q.recipients|
    decreases |q.recipients| - from
  {
    if from == |q.recipients| then owners
    else InsertOwners(WithOwner(owners, q.token, q.recipients[from]), q, from + 1)
  }

  ghost predicate MessageIdInUse(db: Database, messageId: MessageId) {
    exists t :: t in db.requests && db.requests[t].messageId == messageId
  }

  /** The transaction of Setup for a request with distinct recipients. */
  ghost function InsertRequest(db: Database, q: SendRequest, messageId: MessageId): Outcome<Database, EmailError> {
    if q.token in db.requests then
      if db.requests[q.token].content != q.content then Err(ConflictingRequest)
      else if Stored(db, q) then Ok(db) else Err(ConflictingRecipients)
    else if MessageIdInUse(db, messageId) then Err(MessageIdTaken)
    else if exists k :: (k in db.progress || k in db.owners) && k.0 == q.token then Err(RowTaken)
    else Ok(db.(requests := db.requests[q.token := StoredRequest(messageId, q.content)],
                progress := InsertRows(db.progress, q, 0), owners := InsertOwners(db.owners, q, 0)))
  }

  predicate Names(q: SendRequest, from: nat, key: Key) {
    key.0 == q.token && exists i :: from <= i < |q.recipients| && q.recipients[i].email == key.1
  }

  /** Inserting the recipients adds exactly their rows. */
  lemma {:induction false} InsertRowsContents(rows: Rows, q: SendRequest, from: nat)
    requires from <= |q.recipients| && DistinctRecipients(q)
    ensures var out := InsertRows(rows, q, from);
      && (forall k :: k in out <==> k in rows || Names(q, from, k))
      && (forall k :: k in rows && !Names(q, from, k) ==> out[k] == rows[k])
      && (forall i :: from <= i < |q.recipients| ==>
            (q.token, q.recipients[i].email) in out && out[(q.token, q.recipients[i].email)] == NewRow(q.recipients[i]))
    decreases |q.recipients| - from
  {
    if from < |q.recipients| {
      var key := (q.token, q.recipients[from].email);
      var next := rows[key := NewRow(q.recipients[from])];
      InsertRowsContents(next, q, from + 1);
      assert !Names(q, from + 1, key);
      assert forall k :: Names(q, from, k) <==> k == key || Names(q, from + 1, k);
    }
  }

  lemma {:induction false} InsertOwnersContents(owners: map<Key, string>, q: SendRequest, from: nat)
    requires from <= |q.recipients| && DistinctRecipients(q)
    requires forall k :: k in owners && k.0 == q.token ==> !Names(q, from, k)
    ensures var out := InsertOwners(owners, q, from);
      && (forall k :: k in out ==> k in owners || Names(q, from, k))
      && (forall k :: !Names(q, from, k) ==> OwnerOf(out, k) == OwnerOf(owners, k))
      && (forall i :: from <= i < |q.recipients| ==>
            OwnerOf(out, (q.token, q.recipients[i].email)) == q.recipients[i].userId)
    decreases |q.recipients| - from
  {
    if from < |q.recipients| {
      var key := (q.token, q.recipients[from].email);
      var next := WithOwner(owners, q.token, q.recipients[from]);
      assert !Names(q, from + 1, key) && Names(q, from, key);
      assert forall k :: Names(q, from, k) <==> k == key || Names(q, from + 1, k);
      InsertOwnersContents(next, q, from + 1);
    }
  }

  /** After a successful Setup the request is stored, so running Setup again with
      the same request and any other generated message id changes nothing and
      reports no conflict. */
  lemma SetupIsIdempotent(db: Database, q: SendRequest, first: MessageId, second: MessageId)
    requires DistinctRecipients(q) && InsertRequest(db, q, first).Ok?
    ensures var after := InsertRequest(db, q, first).value;
      Stored(after, q) && InsertRequest(after, q, second) == Ok(after)
  {
    if q.token !in db.requests {
      InsertRowsContents(db.progress, q, 0);
      InsertOwnersContents(db.owners, q, 0);
      var after := InsertRequest(db, q, first).value;
      forall i | 0 <= i < |q.recipients| ensures SameRecipient(after, q.token, q.recipients[i]) {
      }
      forall k | k in after.progress && k.0 == q.token ensures k.1 in Emails(q) {
        assert k !in db.progress && Names(q, 0, k);
      }
    }
  }

  // ----- Webhooks -----

  function RecordEvent(db: Database, key: Key, event: DeliveryEvent, at: Time): Database
    requires key in db.progress
  {
    db.(progress := db.progress[key := db.progress[key].(state := EventState(db.progress[key].state, event))],
        events := db.events + [RecordedEvent(key, event, at)])
  }

  /** The addressed row advances by the event in its state alone, every other row and
      everything stored with the request stays, and the event is appended. */
  ghost predicate Advances(db: Database, after: Database, key: Key, event: DeliveryEvent, at: Time) {
    && after.requests == db.requests && after.owners == db.owners && after.progress.Keys == db.progress.Keys
    && (forall k :: k in db.progress && k != key ==> after.progress[k] == db.progress[k])
    && key in db.progress
    && after.progress[key] == Row(db.progress[key].name, db.progress[key].variables,
                                  EventState(db.progress[key].state, event),
                                  db.progress[key].submittedAt, db.progress[key].pmuid)
    && after.events == db.events + [RecordedEvent(key, event, at)]
  }

  lemma RecordAdvances(db: Database, key: Key, event: DeliveryEvent, at: Time)
    requires key in db.progress
    ensures Advances(db, RecordEvent(db, key, event, at), key, event, at)
  {
  }

  // ----- The store object -----

  /** Primary keys hold: progress rows belong to a request, message ids are unique. */
  ghost predicate Consistent(db: Database) {
    && (forall k :: k in db.progress ==> k.0 in db.requests)
    && (forall k :: k in db.owners ==> k in db.progress)
    && (forall t, u :: t in db.requests && u in db.requests && db.requests[t].messageId == db.requests[u].messageId
          ==> t == u)
  }

  lemma {:induction false} SmallestExists(names: set<string>) returns (least: string)
    requires names != {}
    ensures least in names && forall n :: n in names ==> TextLeq(least, n)
    decreases names
  {
    var some :| some in names;
    least := some;
    TextLeqTotal(some, some);
    assert forall n :: n in names ==> n == some || n in names - {some};
    if names - {some} != {} {
      var other := SmallestExists(names - {some});
      TextLeqTotal(some, other);
      if TextLeq(some, other) {
        forall n | n in names ensures TextLeq(some, n) {
          if n != some { TextLeqTransitive(some, other, n); }
        }
      } else {
        least := other;
      }
    }
  }

  class Store {
    var requests: map<Token, StoredRequest>
    var progress: Rows
    var owners: map<Key, string>
    var events: seq<RecordedEvent>

    function View(): Database
      reads this
    {
      Database(requests, progress, owners, events)
    }

    constructor ()
      ensures View() == Database(map[], map[], map[], []) && Consistent(View())
    {
      requests, progress, owners, events := map[], map[], map[], [];
    }

    /** No row is left pending with a submission time; such rows alone change, and
        only in their state. */
    method RecoverAll()
      modifies this`progress
      ensures progress.Keys == old(progress).Keys
      ensures forall k :: k in progress ==> !Stamped(progress[k])
      ensures forall k :: k in progress && Stamped(old(progress)[k]) ==>
        progress[k].state == Recovery && progress[k].(state := Pending) == old(progress)[k]
      ensures forall k :: k in progress && !Stamped(old(progress)[k]) ==> progress[k] == old(progress)[k]
      ensures progress == RecoverSubmissions(old(progress))
    {
      progress := map k | k in progress ::
        if progress[k].state == Pending && progress[k].submittedAt != None
        then progress[k].(state := Recovery) else progress[k];
    }

    /** Records a webhook event under the request that carries the message id. */
    method Record(messageId: MessageId, recipient: Recipient, event: DeliveryEvent, at: Time)
      returns (r: Outcome<(), EmailError>)
      requires Consistent(View())
      modifies this`progress, this`events
      ensures Consistent(View())
      ensures r.Ok? <==> exists t :: t in requests && requests[t].messageId == messageId && (t, recipient) in old(progress)
      ensures r.Err? ==> View() == old(View())
      ensures forall t :: r.Ok? && t in requests && requests[t].messageId == messageId ==>
        && (t, recipient) in old(progress) && Advances(old(View()), View(), (t, recipient), event, at)
        && View() == RecordEvent(old(View()), (t, recipient), event, at)
    {
      var matching := set t | t in requests && requests[t].messageId == messageId && (t, recipient) in progress;
      if matching == {} {
        assert forall t :: t in requests && requests[t].messageId == messageId && (t, recipient) in progress ==> t in matching;
        return Err(UnknownRecipient);
      }
      var token :| token in matching;
      var key := (token, recipient);
      var next := EventState(progress[key].state, event);
      if next != progress[key].state {
        progress := progress[key := progress[key].(state := next)];
      }
      assert progress == old(progress)[key := old(progress)[key].(state := next)];
      events := events + [RecordedEvent(key, event, at)];
      RecordAdvances(old(View()), key, event, at);
      return Ok(());
    }

    /** Recipients of a token in a given state, in recipient order. */
    method ListByState(token: Token, state: RowState) returns (list: seq<Recipient>)
      ensures Lists(list, set k | k in progress && k.0 == token && progress[k].state == state :: k.1)
      ensures forall i, j :: 0 <= i < j < |list| ==> TextLeq(list[i], list[j])
    {
      var rest := set k | k in progress && k.0 == token && progress[k].state == state :: k.1;
      ghost var all := rest;
      list := [];
      while rest != {}
        invariant rest <= all && Lists(list, all - rest)
        invariant forall i, j :: 0 <= i < j < |list| ==> TextLeq(list[i], list[j])
        invariant forall i, n :: 0 <= i < |list| && n in rest ==> TextLeq(list[i], n)
        decreases rest
      {
        ghost var least := SmallestExists(rest);
        var next :| next in rest && forall n :: n in rest ==> TextLeq(next, n);
        assert forall i :: 0 <= i < |list| ==> list[i] in list;
        list := list + [next];
        rest := rest - {next};
      }
    }

    method HasUnresolved(token: Token) returns (unresolved: bool)
      ensures unresolved <==> exists k :: k in progress && k.0 == token && Unresolved(progress[k])
    {
      var matching := set k | k in progress && k.0 == token && Unresolved(progress[k]);
      unresolved := |matching| > 0;
      if !unresolved {
        assert forall k :: k in progress && k.0 == token && Unresolved(progress[k]) ==> k in matching;
      } else {
        assert matching != {};
        ghost var k :| k in matching;
      }
    }

    /** Every pending row of the token carries the time afterwards; nothing else
        about it changes, and no other row does. */
    method Mark(token: Token, at: Time)
      modifies this`progress
      ensures progress.Keys == old(progress).Keys
      ensures forall k :: k in progress && k.0 == token && progress[k].state == Pending ==>
        progress[k].submittedAt == Some(at)
      ensures forall k :: k in progress ==>
        progress[k].(submittedAt := None) == old(progress)[k].(submittedAt := None)
      ensures forall k :: k in progress && (k.0 != token || old(progress)[k].state != Pending) ==>
        progress[k] == old(progress)[k]
      ensures progress == MarkSubmitted(old(progress), token, at)
    {
      progress := map k | k in progress ::
        if k.0 == token && progress[k].state == Pending then progress[k].(submittedAt := Some(at)) else progress[k];
    }

    /** One transaction over the pending list: updates a copy row by row and
        commits only when every update hit exactly one row. */
    method AcceptAll(token: Token, messageId: MessageId, pending: seq<Recipient>) returns (r: Outcome<(), EmailError>)
      modifies this`progress
      ensures var spec := AcceptBestEffort(old(progress), token, messageId, pending, 0);
        if spec.Some? then r.Ok? && progress == spec.value
        else r == Err(NoLongerPending) && progress == old(progress)
    {
      var tx := progress;
      for index := 0 to |pending|
        invariant AcceptBestEffort(tx, token, messageId, pending, index)
               == AcceptBestEffort(progress, token, messageId, pending, 0)
      {
        var key := (token, pending[index]);
        var hit := key in tx && tx[key].state == Pending && tx[key].submittedAt == None;
        if !hit { return Err(NoLongerPending); }
        tx := tx[key := tx[key].(state := Accepted, pmuid := Some(SuppressedId(messageId, index)), submittedAt := None)];
      }
      progress := tx;
      return Ok(());
    }

    /** Setup's transaction: compares with what is stored, or inserts. */
    method Insert(q: SendRequest, messageId: MessageId) returns (r: Outcome<(), EmailError>)
      requires Consistent(View())
      modifies this
      ensures !DistinctRecipients(q) ==> r == Err(DuplicateRecipient) && View() == old(View())
      ensures DistinctRecipients(q) ==>
        var spec := InsertRequest(old(View()), q, messageId);
        if spec.Ok? then r.Ok? && View() == spec.value else r == Err(spec.error) && View() == old(View())
    {
      var wanted, duplicate := IndexRecipients(q);
      if duplicate { return Err(DuplicateRecipient); }
      if q.token in requests {
        if requests[q.token].content != q.content { return Err(ConflictingRequest); }
        var same := CompareRecipients(q, wanted);
        if same { return Ok(()); } else { return Err(ConflictingRecipients); }
      }
      if exists t :: t in requests && requests[t].messageId == messageId { return Err(MessageIdTaken); }
      requests := requests[q.token := StoredRequest(messageId, q.content)];
      for i := 0 to |q.recipients|
        invariant requests == old(requests)[q.token := StoredRequest(messageId, q.content)] && events == old(events)
        invariant InsertRows(progress, q, i) == InsertRows(old(progress), q, 0)
        invariant InsertOwners(owners, q, i) == InsertOwners(old(owners), q, 0)
      {
        var row := q.recipients[i];
        progress := progress[(q.token, row.email) := NewRow(row)];
        if row.userId != "" {
          owners := owners[(q.token, row.email) := row.userId];
        }
      }
      return Ok(());
    }

    method IndexRecipients(q: SendRequest) returns (wanted: map<Recipient, SendRecipient>, duplicate: bool)
      ensures duplicate <==> !DistinctRecipients(q)
      ensures !duplicate ==> IndexedBy(q, wanted)
    {
      wanted := map[];
      for i := 0 to |q.recipients|
        invariant forall a, b :: 0 <= a < b < i ==> q.recipients[a].email != q.recipients[b].email
        invariant wanted.Keys == set a | 0 <= a < i :: q.recipients[a].email
        invariant forall a :: 0 <= a < i ==> wanted[q.recipients[a].email] == q.recipients[a]
      {
        if q.recipients[i].email in wanted { return wanted, true; }
        wanted := wanted[q.recipients[i].email := q.recipients[i]];
      }
      return wanted, false;
    }

    /** Every stored row must match a wanted recipient, and their number must agree. */
    method CompareRecipients(q: SendRequest, wanted: map<Recipient, SendRecipient>) returns (same: bool)
      requires IndexedBy(q, wanted)
      requires q.token in requests && requests[q.token].content == q.content
      ensures same <==> Stored(View(), q)
    {
      var seen, matching := CountMatching(View(), q.token, wanted);
      if !matching {
        ghost var n :| n in StoredNames(View(), q.token) && !Matches(View(), q.token, wanted, n);
        StoredRowsMatch(View(), q, wanted, n);
        return false;
      }
      StoredByCount(View(), q, wanted);
      return seen == |wanted.Keys|;
    }

    static method CountMatching(db: Database, token: Token, wanted: map<Recipient, SendRecipient>)
      returns (seen: nat, matching: bool)
      ensures matching <==> forall n :: n in StoredNames(db, token) ==> Matches(db, token, wanted, n)
      ensures matching ==> seen == |StoredNames(db, token)|
    {
      var stored := StoredNames(db, token);
      var rest := stored;
      seen := 0;
      while rest != {}
        invariant rest <= stored && seen == |stored - rest|
        invariant forall n :: n in stored - rest ==> Matches(db, token, wanted, n)
        decreases rest
      {
        var n :| n in rest;
        if !Matches(db, token, wanted, n) {
          return seen, false;
        }
        assert stored - (rest - {n}) == (stored - rest) + {n};
        rest := rest - {n};
        seen := seen + 1;
      }
      assert stored - rest == stored;
      return seen, true;
    }
  }

  /** The request's recipients, looked up by address. */
  ghost predicate IndexedBy(q: SendRequest, wanted: map<Recipient, SendRecipient>) {
    && wanted.Keys == Emails(q)
    && forall i :: 0 <= i < |q.recipients| ==>
         q.recipients[i].email in wanted && wanted[q.recipients[i].email] == q.recipients[i]
  }

  function StoredNames(db: Database, token: Token): set<Recipient> {
    set k | k in db.progress && k.0 == token :: k.1
  }

  predicate Matches(db: Database, token: Token, wanted: map<Recipient, SendRecipient>, n: Recipient) {
    n in wanted && wanted[n].email == n && SameRecipient(db, token, wanted[n])
  }

  lemma StoredRowsMatch(db: Database, q: SendRequest, wanted: map<Recipient, SendRecipient>, n: Recipient)
    requires IndexedBy(q, wanted) && n in StoredNames(db, q.token)
    ensures Stored(db, q) ==> Matches(db, q.token, wanted, n)
  {
    assert (q.token, n) in db.progress;
  }

  /** When every stored row matches, equal numbers mean equal sets. */
  lemma StoredByCount(db: Database, q: SendRequest, wanted: map<Recipient, SendRecipient>)
    requires IndexedBy(q, wanted)
    requires q.token in db.requests && db.requests[q.token].content == q.content
    requires forall n :: n in StoredNames(db, q.token) ==> Matches(db, q.token, wanted, n)
    ensures Stored(db, q) <==> |StoredNames(db, q.token)| == |wanted.Keys|
  {
    var stored := StoredNames(db, q.token);
    assert forall k :: k in db.progress && k.0 == q.token ==> k.1 in stored;
    if |stored| == |wanted.Keys| {
      SubsetOfSameSize(stored, wanted.Keys);
      forall i | 0 <= i < |q.recipients| ensures SameRecipient(db, q.token, q.recipients[i]) {
        assert q.recipients[i].email in stored;
      }
    }
    if Stored(db, q) {
      forall n | n in wanted.Keys ensures n in stored {
        var i :| 0 <= i < |q.recipients| && q.recipients[i].email == n;
        assert SameRecipient(db, q.token, q.recipients[i]);
      }
      assert stored == wanted.Keys;
    }
  }

  lemma SubsetOfSameSize<T>(a: set<T>, b: set<T>)
    requires a <= b && |a| == |b|
    ensures a == b
  {
    if exists x :: x in b && x !in a {
      var x :| x in b && x !in a;
      assert |a + {x}| == |a| + 1;
      SubsetNotLarger(a + {x}, b);
    }
  }

  lemma {:induction false} SubsetNotLarger<T>(a: set<T>, b: set<T>)
    requires a <= b
    ensures |a| <= |b|
    decreases a
  {
    if a != {} {
      var x :| x in a;
      SubsetNotLarger(a - {x}, b - {x});
    }
  }

  // ----- Setup, outcome by outcome -----

  /** What Setup of a new token stores: its request, one fresh row per recipient with
      the name and variables asked for, and the owners; everything else stays. */
  ghost predicate SetUp(db: Database, after: Database, q: SendRequest, messageId: MessageId) {
    && after.requests == db.requests[q.token := StoredRequest(messageId, q.content)] && after.events == db.events
    && (forall k :: k in after.progress <==> k in db.progress || Names(q, 0, k))
    && (forall k :: k in db.progress ==> after.progress[k] == db.progress[k])
    && (forall k :: !Names(q, 0, k) ==> OwnerOf(after.owners, k) == OwnerOf(db.owners, k))
    && (forall i :: 0 <= i < |q.recipients| ==>
          var r := q.recipients[i];
          && (q.token, r.email) in after.progress
          && after.progress[(q.token, r.email)] == Row(r.name, r.variables, Pending, None, None)
          && OwnerOf(after.owners, (q.token, r.email)) == r.userId)
  }

  /** Setup with distinct recipients leaves a stored request alone exactly when it is
      the same in content and recipients, sets up a new token unless the message id or a
      row is taken, and fails otherwise. */
  lemma SetupOutcome(db: Database, q: SendRequest, messageId: MessageId)
    requires DistinctRecipients(q)
    ensures var r := InsertRequest(db, q, messageId);
      if q.token in db.requests then
        && (r == Ok(db) <==> Stored(db, q)) && (r.Ok? ==> r == Ok(db))
        && (r == Err(ConflictingRequest) <==> db.requests[q.token].content != q.content)
        && (r == Err(ConflictingRecipients) <==> db.requests[q.token].content == q.content && !Stored(db, q))
      else if MessageIdInUse(db, messageId) then r == Err(MessageIdTaken)
      else if exists k :: (k in db.progress || k in db.owners) && k.0 == q.token then r == Err(RowTaken)
      else r.Ok? && SetUp(db, r.value, q, messageId)
  {
    if q.token !in db.requests && InsertRequest(db, q, messageId).Ok? {
      InsertRowsContents(db.progress, q, 0);
      InsertOwnersContents(db.owners, q, 0);
      forall k | k in db.progress ensures !Names(q, 0, k) {
      }
    }
  }

  // ----- Synthetic identifiers -----

  function Digit(c: char): nat { if '0' <= c <= '9' then (c - '0') as nat else 10 }

  /** The number a decimal stands for. */
  function Reading(s: string): nat {
    if s == "" then 0 else 10 * Reading(s[..|s| - 1]) + Digit(s[|s| - 1])
  }

  lemma DigitOf(d: nat)
    requires d < 10
    ensures Digit("0123456789"[d]) == d && "0123456789"[d] != ':'
  {
  }

  lemma {:induction false} DecimalReads(n: nat)
    ensures Reading(Decimal(n)) == n && Decimal(n) != "" && ':' !in Decimal(n)
    decreases n
  {
    DigitOf(n % 10);
    if n < 10 {
      assert Decimal(n)[..0] == "";
    } else {
      DecimalReads(n / 10);
      assert Decimal(n)[..|Decimal(n)| - 1] == Decimal(n / 10);
    }
  }

  lemma NoColonAfter(s: string, a: string, x: string)
    requires s == a + ":" + x && ':' !in x
    ensures |a| < |s| && s[|a|] == ':' && forall k :: |a| < k < |s| ==> s[k] != ':'
  {
    assert forall k :: |a| < k < |s| ==> s[k] == x[k - |a| - 1];
  }

  /** What follows the last colon is the same, and so is what comes before it. */
  lemma LastColon(a: string, x: string, b: string, y: string)
    requires a + ":" + x == b + ":" + y && ':' !in x && ':' !in y
    ensures a == b && x == y
  {
    var s := a + ":" + x;
    NoColonAfter(s, a, x);
    NoColonAfter(s, b, y);
    assert s[..|a|] == a && (b + ":" + y)[..|b|] == b;
    assert s[|a| + 1..] == x && (b + ":" + y)[|b| + 1..] == y;
  }

  /** Synthetic identifiers of different messages or positions differ. */
  lemma SuppressedIdsDiffer(m: MessageId, i: nat, n: MessageId, j: nat)
    ensures SuppressedId(m, i) == SuppressedId(n, j) <==> m == n && i == j
  {
    if SuppressedId(m, i) == SuppressedId(n, j) {
      DecimalReads(i);
      DecimalReads(j);
      LastColon("suppressed:" + m, Decimal(i), "suppressed:" + n, Decimal(j));
      assert ("suppressed:" + m)[11..] == m && ("suppressed:" + n)[11..] == n;
    }
  }
}

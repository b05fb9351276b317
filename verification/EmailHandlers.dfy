/** The durable email handlers: what each one asks Cellar to do with the answer
    it got, and the loops that build those requests. */
module EmailHandlers {
  import opened Basics
  import opened Cells
  import opened EmailStore

  const SECOND: Time := 1_000_000_000

  /** The minimum interval from a recorded submission to its verification. */
  const VERIFY_DELAY: Time := 120 * SECOND

  /** The payload of a step; its constructor names the handler. */
  datatype Payload =
    | SetupStep(request: SendRequest)
    | RecoveryStep(token: Token)
    | PostStep(token: Token)
    | FanoutStep(token: Token)
    | VerifyStep(key: Key)

  function HandlerName(p: Payload): string {
    match p
    case SetupStep(_) => "durable_email.setup"
    case RecoveryStep(_) => "durable_email.recovery"
    case PostStep(_) => "durable_email.post"
    case FanoutStep(_) => "durable_email.recovery_fanout"
    case VerifyStep(_) => "durable_email.verify"
  }

  function StepOf(p: Payload): CellStep<Payload> { CellStep(HandlerName(p), p) }

  /** Setup, then Recovery, then Post. */
  function SendSteps(q: SendRequest): seq<CellStep<Payload>> {
    [StepOf(SetupStep(q)), StepOf(RecoveryStep(q.token)), StepOf(PostStep(q.token))]
  }

  /** Application work, run in the transaction that applies a result. */
  datatype Work =
    | Insert(request: SendRequest, messageId: MessageId)
    | Recover(token: Token)
    | Wait(token: Token)
    | Absent(key: Key)
    | Accept(key: Key, pmuid: Pmuid)
    | AcceptRecovered(key: Key, pmuid: Pmuid)

  type EmailResult = Result<Payload, Work>

  ghost function RunWork(db: Database, work: Work): Outcome<Database, EmailError> {
    match work
    case Insert(q, messageId) => InsertRequest(db, q, messageId)
    case Recover(token) => Ok(db.(progress := RecoverWork(db.progress, token)))
    case Wait(token) => Ok(db.(progress := WaitWork(db.progress, token)))
    case Absent(key) => Ok(db.(progress := AbsentWork(db.progress, key)))
    case Accept(key, pmuid) => Ok(db.(progress := AcceptWork(db.progress, key, pmuid)))
    case AcceptRecovered(key, pmuid) => Ok(db.(progress := AcceptRecoveredWork(db.progress, key, pmuid)))
  }

  ghost function RunWorks(db: Database, works: seq<Work>): Outcome<Database, EmailError>
    decreases |works|
  {
    if works == [] then Ok(db)
    else
      var next := RunWork(db, works[0]);
      if next.Err? then next else RunWorks(next.value, works[1..])
  }

  // ----- Recovery -----

  /** Recovery asks for a fanout cell that may not run before the deadline. */
  function RecoveryResult(token: Token, deadline: Time): EmailResult {
    Retry(Some(deadline), [Request("", [StepOf(FanoutStep(token))], Some(deadline))], [Wait(token)])
  }

  /** The latest verification deadline over the recovery candidates. */
  method LatestDeadline(submitted: seq<Time>) returns (deadline: Time)
    requires submitted != []
    ensures forall i :: 0 <= i < |submitted| ==> submitted[i] + VERIFY_DELAY <= deadline
    ensures exists i :: 0 <= i < |submitted| && submitted[i] + VERIFY_DELAY == deadline
  {
    deadline := submitted[0] + VERIFY_DELAY;
    for i := 1 to |submitted|
      invariant forall j :: 0 <= j < i ==> submitted[j] + VERIFY_DELAY <= deadline
      invariant exists j :: 0 <= j < i && submitted[j] + VERIFY_DELAY == deadline
    {
      var later := submitted[i] + VERIFY_DELAY;
      if later > deadline {
        deadline := later;
      }
    }
  }

  /** One Verify cell per waiting recipient, under the ids derived for them. */
  function FanoutResult(token: Token, list: seq<Recipient>, ids: seq<CellId>): EmailResult
    requires |ids| == |list|
  {
    Complete(seq(|list|, i requires 0 <= i < |list| => Request(ids[i], [StepOf(VerifyStep((token, list[i])))], None)), [])
  }

  // ----- Post -----

  /** What the provider client returned: an error, or one identifier per recipient it reports. */
  datatype SendAnswer = SendFailed | SendReturned(ids: seq<Pmuid>)

  predicate Usable(answer: SendAnswer, pending: seq<Recipient>) {
    answer.SendReturned? && |answer.ids| == |pending| && forall i :: 0 <= i < |answer.ids| ==> answer.ids[i] != ""
  }

  function Accepts(token: Token, pending: seq<Recipient>, ids: seq<Pmuid>): seq<Work>
    requires |pending| <= |ids|
  {
    seq(|pending|, i requires 0 <= i < |pending| => Accept((token, pending[i]), ids[i]))
  }

  /** Anything but a full list of identifiers is ambiguous and sends the whole
      batch to recovery. */
  function PostResult(token: Token, pending: seq<Recipient>, answer: SendAnswer): EmailResult {
    if Usable(answer, pending) then Complete([], Accepts(token, pending, answer.ids))
    else RetrySequence(0, [], [Recover(token)])
  }

  method BuildPostResult(token: Token, pending: seq<Recipient>, answer: SendAnswer) returns (result: EmailResult)
    ensures result == PostResult(token, pending, answer)
  {
    if answer.SendFailed? { return RetrySequence(0, [], [Recover(token)]); }
    if |answer.ids| != |pending| { return RetrySequence(0, [], [Recover(token)]); }
    var works: seq<Work> := [];
    for index := 0 to |pending|
      invariant works == Accepts(token, pending[..index], answer.ids)
      invariant forall i :: 0 <= i < index ==> answer.ids[i] != ""
    {
      if answer.ids[index] == "" { return RetrySequence(0, [], [Recover(token)]); }
      works := works + [Accept((token, pending[index]), answer.ids[index])];
    }
    assert pending[..|pending|] == pending;
    return Complete([], works);
  }

  // ----- Verify -----

  datatype Answer = NotFound | Found(pmuid: Pmuid) | Failed

  /** None when the handler reports an error and leaves its cell claimed. */
  function VerifyResult(key: Key, answer: Answer): Option<EmailResult> {
    match answer
    case NotFound => Some(Complete([], [Absent(key)]))
    case Found(pmuid) => if pmuid == "" then None else Some(Complete([], [AcceptRecovered(key, pmuid)]))
    case Failed => None
  }
}

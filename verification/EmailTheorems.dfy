/** What durable email delivery guarantees in every run: crashes, restarts and
    webhooks may fall between any two actions. */
module EmailTheorems {
  import opened Basics
  import opened EmailEvents
  import opened EmailStore
  import opened EmailHandlers
  import opened EmailProtocol
  import opened EmailInvariant
  import opened EmailApplying

  // ----- What a lawful trace means, event by event -----

  lemma {:induction false} LawfulAt(log: seq<Trace>, j: nat)
    requires Lawful(log) && j < |log|
    ensures Respects(log[..j], log[j]) && Lawful(log[..j])
    decreases |log|
  {
    var shorter := log[..|log| - 1];
    if j < |log| - 1 {
      LawfulAt(shorter, j);
      assert shorter[..j] == log[..j];
    }
  }

  ghost predicate ClearedBetween(log: seq<Trace>, key: Key, i: int, j: int) {
    exists m :: 0 <= i < m < j <= |log| && log[m].Verified? && log[m].key == key && log[m].answer == NotFound
  }

  /** After a Send the outcome stays unknown until a verification finds nothing. */
  lemma {:induction false} OutstandingUntilCleared(log: seq<Trace>, key: Key, i: nat)
    requires i < |log| && log[i].Mailed? && Includes(log[i].token, log[i].recipients, key)
    ensures Summarise(log, key).outstanding || ClearedBetween(log, key, i, |log|)
    decreases |log|
  {
    var last := |log| - 1;
    if i < last {
      var shorter := log[..last];
      OutstandingUntilCleared(shorter, key, i);
      if ClearedBetween(shorter, key, i, last) {
        var m :| i < m < last && shorter[m].Verified? && shorter[m].key == key && shorter[m].answer == NotFound;
        assert log[m] == shorter[m];
      } else if log[last].Verified? && log[last].key == key && log[last].answer == NotFound {
        assert ClearedBetween(log, key, i, |log|);
      }
    }
  }

  lemma {:induction false} MarkBelowLatest(log: seq<Trace>, key: Key, i: nat)
    requires i < |log| && log[i].Marked? && key.0 == log[i].token && key.1 in log[i].stamped
    ensures Summarise(log, key).latestMark.Some? && log[i].at <= Summarise(log, key).latestMark.value
    decreases |log|
  {
    if i < |log| - 1 {
      MarkBelowLatest(log[..|log| - 1], key, i);
    }
  }

  ghost predicate SentBetween(log: seq<Trace>, key: Key, i: int, j: int) {
    exists m :: 0 <= i < m < j <= |log| && log[m].Mailed? && Includes(log[m].token, log[m].recipients, key)
  }

  /** After a best-effort acceptance the recipient awaits exactly that batch's Send. */
  lemma {:induction false} HandlingProgress(log: seq<Trace>, key: Key, h: nat)
    requires Lawful(log) && h < |log| && log[h].Handled? && Includes(log[h].token, log[h].recipients, key)
    ensures Summarise(log, key).handling == if SentBetween(log, key, h, |log|) then Done else Awaiting(log[h].recipients)
    decreases |log|
  {
    var last := |log| - 1;
    if h < last {
      var shorter, e := log[..last], log[last];
      HandlingProgress(shorter, key, h);
      assert e.Mailed? && Includes(e.token, e.recipients, key) ==> SentBetween(log, key, h, |log|);
      if SentBetween(shorter, key, h, last) {
        var m :| h < m < last && shorter[m].Mailed? && Includes(shorter[m].token, shorter[m].recipients, key);
        assert log[m] == shorter[m];
        assert SentBetween(log, key, h, |log|);
      } else if SentBetween(log, key, h, |log|) {
        var m :| h < m < |log| && log[m].Mailed? && Includes(log[m].token, log[m].recipients, key);
        assert m < last ==> shorter[m] == log[m];
      }
      assert key == (key.0, key.1);
    } else {
      assert !SentBetween(log, key, h, |log|);
    }
  }

  /** An event that shows the provider a message id for the token. */
  predicate Shows(e: Trace, t: Token) {
    TokenOf(e) == t && (e.Mailed? || e.Verified?)
  }

  lemma {:induction false} MessageAgrees(log: seq<Trace>, t: Token, i: nat)
    requires Lawful(log) && i < |log| && Shows(log[i], t)
    ensures MessageOf(log, t) == Some(log[i].messageId)
    decreases |log|
  {
    if i < |log| - 1 {
      MessageAgrees(log[..|log| - 1], t, i);
    }
  }

  // ----- Safety of every run -----

  lemma RunIsLawful(start: Time, actions: seq<Action>)
    requires IsRun(Initial(start), actions)
    ensures Inv(After(Initial(start), actions)) && Lawful(After(Initial(start), actions).log)
  {
    InitialInv(start);
    RunKeepsInv(Initial(start), actions);
  }

  /** A recipient is submitted again only if a verification made after its
      previous submission answered that the provider knows nothing of it. */
  lemma NoBlindResend(start: Time, actions: seq<Action>, i: nat, j: nat, key: Key)
    requires IsRun(Initial(start), actions) && i < j < |After(Initial(start), actions).log|
    requires var log := After(Initial(start), actions).log;
      && log[i].Mailed? && Includes(log[i].token, log[i].recipients, key)
      && log[j].Mailed? && Includes(log[j].token, log[j].recipients, key)
    ensures ClearedBetween(After(Initial(start), actions).log, key, i, j)
  {
    RunIsLawful(start, actions);
    ResendCleared(After(Initial(start), actions).log, i, j, key);
  }

  lemma ResendCleared(log: seq<Trace>, i: nat, j: nat, key: Key)
    requires Lawful(log) && i < j < |log|
    requires log[i].Mailed? && Includes(log[i].token, log[i].recipients, key)
    requires log[j].Mailed? && Includes(log[j].token, log[j].recipients, key)
    ensures ClearedBetween(log, key, i, j)
  {
    LawfulAt(log, j);
    OutstandingUntilCleared(log[..j], key, i);
    assert key == (key.0, key.1);
    var m :| 0 <= i < m < j && log[..j][m].Verified? && log[..j][m].key == key && log[..j][m].answer == NotFound;
    assert log[m] == log[..j][m];
  }

  /** A verification is asked no earlier than two minutes after every earlier
      stamping of that recipient, and with a submission time not before it. */
  lemma VerifiedLateEnough(start: Time, actions: seq<Action>, j: nat)
    requires IsRun(Initial(start), actions) && j < |After(Initial(start), actions).log|
    requires After(Initial(start), actions).log[j].Verified?
    ensures var log := After(Initial(start), actions).log;
      && log[j].sentAt + 120_000_000_000 <= log[j].at
      && forall i :: 0 <= i < j && log[i].Marked? && log[j].key.0 == log[i].token && log[j].key.1 in log[i].stamped ==>
           log[i].at <= log[j].sentAt && log[i].at + 120_000_000_000 <= log[j].at
  {
    RunIsLawful(start, actions);
    var log := After(Initial(start), actions).log;
    LawfulAt(log, j);
    forall i | 0 <= i < j && log[i].Marked? && log[j].key.0 == log[i].token && log[j].key.1 in log[i].stamped
      ensures log[i].at <= log[j].sentAt
    {
      MarkBelowLatest(log[..j], log[j].key, i);
    }
  }

  /** Once a best-effort acceptance commits, its recipients appear in no Send but
      the one that attempt makes, and in that one at most once. */
  lemma BestEffortSentOnce(start: Time, actions: seq<Action>, h: nat, j: nat, key: Key)
    requires IsRun(Initial(start), actions) && h < j < |After(Initial(start), actions).log|
    requires var log := After(Initial(start), actions).log;
      && log[h].Handled? && Includes(log[h].token, log[h].recipients, key)
      && log[j].Mailed? && Includes(log[j].token, log[j].recipients, key)
    ensures var log := After(Initial(start), actions).log;
      && log[j].bestEffort && log[j].recipients == log[h].recipients
      && forall m :: h < m < |log| && m != j && log[m].Mailed? ==> !Includes(log[m].token, log[m].recipients, key)
  {
    RunIsLawful(start, actions);
    var log := After(Initial(start), actions).log;
    SentFromBatch(log, h, j, key);
    forall m | h < m < |log| && m != j && log[m].Mailed? ensures !Includes(log[m].token, log[m].recipients, key) {
      if Includes(log[m].token, log[m].recipients, key) {
        SentFromBatch(log, h, if m < j then j else m, key);
      }
    }
  }

  lemma SentFromBatch(log: seq<Trace>, h: nat, j: nat, key: Key)
    requires Lawful(log) && h < j < |log|
    requires log[h].Handled? && Includes(log[h].token, log[h].recipients, key)
    requires log[j].Mailed? && Includes(log[j].token, log[j].recipients, key)
    ensures log[j].bestEffort && log[j].recipients == log[h].recipients
    ensures forall m :: h < m < j && log[m].Mailed? ==> !Includes(log[m].token, log[m].recipients, key)
  {
    LawfulAt(log, j);
    HandlingProgress(log[..j], key, h);
    assert key == (key.0, key.1);
    forall m | h < m < j && log[m].Mailed? ensures !Includes(log[m].token, log[m].recipients, key) {
      assert log[..j][m] == log[m];
    }
  }

  /** Every Send and every verification of a token shows the same message id. */
  lemma OneMessageId(start: Time, actions: seq<Action>, t: Token, i: nat, j: nat)
    requires IsRun(Initial(start), actions)
    requires var log := After(Initial(start), actions).log;
      i < |log| && j < |log| && Shows(log[i], t) && Shows(log[j], t)
    ensures After(Initial(start), actions).log[i].messageId == After(Initial(start), actions).log[j].messageId
  {
    RunIsLawful(start, actions);
    MessageAgrees(After(Initial(start), actions).log, t, i);
    MessageAgrees(After(Initial(start), actions).log, t, j);
  }

  /** The joint row invariant of every reachable state. */
  lemma RowsStayConsistent(start: Time, actions: seq<Action>, k: Key, l: Key)
    requires IsRun(Initial(start), actions)
    requires k in After(Initial(start), actions).db.progress && l in After(Initial(start), actions).db.progress
    ensures var rows := After(Initial(start), actions).db.progress;
      && (Unresolved(rows[k]) ==> rows[k].submittedAt.Some?)
      && (Unresolved(rows[k]) || rows[k].state == Pending ==> rows[k].pmuid.None?)
      && (k.0 == l.0 && Unresolved(rows[k]) ==>
            && (rows[l].state == Pending ==> rows[l].submittedAt.None?)
            && (Unresolved(rows[l]) ==> rows[l].state == rows[k].state))
  {
    RunIsLawful(start, actions);
    var rows := After(Initial(start), actions).db.progress;
    assert RowSane(rows[k]) && RowSane(rows[l]);
    assert k.0 == l.0 ==> Compatible(KindOf(rows[k]), KindOf(rows[l]));
  }
}

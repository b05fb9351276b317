/** Delivery states of a recipient and how provider events advance them. */
module EmailEvents {

  datatype RowState =
    | Pending | Accepted | Recovery | RecoveryWaiting | Refused
    | Sent | Delivered | Opened | Clicked | SpamComplaint | HardBounced

  datatype DeliveryEvent =
    | EventSent | EventDelivered | EventSoftBounce | EventHardBounce
    | EventProxyOpen | EventHumanOpen | EventClick | EventSpamComplaint

  /** No provider news yet: the states an event may always advance. */
  predicate Unreported(state: RowState) {
    state == Pending || state == Recovery || state == RecoveryWaiting || state == Accepted
  }

  predicate Terminal(state: RowState) {
    state == Refused || state == HardBounced || state == SpamComplaint
  }

  function EventState(state: RowState, event: DeliveryEvent): RowState {
    if Terminal(state) then state
    else match event
      case EventSent => if Unreported(state) then Sent else state
      case EventSoftBounce => if Unreported(state) then Sent else state
      case EventProxyOpen => if Unreported(state) then Sent else state
      case EventDelivered => if state == Sent || Unreported(state) then Delivered else state
      case EventHumanOpen =>
        if state == Sent || state == Delivered || Unreported(state) then Opened else state
      case EventClick =>
        if state == Sent || state == Delivered || state == Opened || Unreported(state) then Clicked else state
      case EventSpamComplaint => SpamComplaint
      case EventHardBounce =>
        if state == Clicked || state == Opened || state == Delivered then state else HardBounced
  }

  function Fold(state: RowState, events: seq<DeliveryEvent>): RowState
    decreases |events|
  {
    if events == [] then state else Fold(EventState(state, events[0]), events[1..])
  }

  /** How much is known about a message; terminal states are above the rest. */
  function Progress(state: RowState): nat {
    match state
    case Sent => 1
    case Delivered => 2
    case Opened => 3
    case Clicked => 4
    case SpamComplaint => 5
    case HardBounced => 6
    case Refused => 7
    case _ => 0
  }

  /** What an event establishes on its own. */
  function Evidence(event: DeliveryEvent): nat {
    match event
    case EventSent => 1
    case EventSoftBounce => 1
    case EventProxyOpen => 1
    case EventDelivered => 2
    case EventHumanOpen => 3
    case EventClick => 4
    case EventSpamComplaint => 5
    case EventHardBounce => 6
  }

  /** The strongest evidence among a set of events. */
  ghost predicate IsStrongest(events: set<DeliveryEvent>, level: nat) {
    && (forall e :: e in events ==> Evidence(e) <= level)
    && (if events == {} then level == 0 else exists e :: e in events && Evidence(e) == level)
  }

  function EventSet(events: seq<DeliveryEvent>): set<DeliveryEvent> {
    set e | e in events
  }

  lemma {:induction false} FoldNeverLowers(state: RowState, events: seq<DeliveryEvent>)
    ensures Progress(Fold(state, events)) >= Progress(state)
    ensures Terminal(state) ==> Fold(state, events) == state
    decreases |events|
  {
    if events != [] {
      FoldNeverLowers(EventState(state, events[0]), events[1..]);
    }
  }

  lemma StrongestExtended(e: DeliveryEvent, rest: seq<DeliveryEvent>, best: nat, level: nat)
    requires IsStrongest(EventSet(rest), best) && IsStrongest(EventSet([e] + rest), level)
    ensures level == if Evidence(e) > best then Evidence(e) else best
  {
    assert EventSet([e] + rest) == EventSet(rest) + {e};
    assert e in EventSet([e] + rest);
  }

  /** One event other than a hard bounce raises progress to its evidence, or does nothing. */
  lemma EventRaises(state: RowState, e: DeliveryEvent)
    requires !Terminal(state) && e != EventHardBounce
    ensures if Evidence(e) <= Progress(state) then EventState(state, e) == state
            else Progress(EventState(state, e)) == Evidence(e)
  {
  }

  /** Without hard bounces the outcome is the strongest event's, in any order and
      however often events repeat: it depends on the set of events only. */
  lemma {:induction false} FoldIsStrongest(state: RowState, events: seq<DeliveryEvent>, level: nat)
    requires !Terminal(state) && EventHardBounce !in events && IsStrongest(EventSet(events), level)
    ensures if level <= Progress(state) then Fold(state, events) == state
            else Progress(Fold(state, events)) == level
    decreases |events|
  {
    if events == [] {
      assert EventSet(events) == {};
    } else {
      var e, rest := events[0], events[1..];
      assert events == [e] + rest;
      var best := StrongestOf(rest);
      StrongestExtended(e, rest, best, level);
      EventRaises(state, e);
      var next := EventState(state, e);
      if Terminal(next) {
        FoldNeverLowers(next, rest);
      } else {
        FoldIsStrongest(next, rest, best);
      }
    }
  }

  lemma {:induction false} StrongestOf(events: seq<DeliveryEvent>) returns (level: nat)
    requires EventHardBounce !in events
    ensures IsStrongest(EventSet(events), level) && level <= 5
    decreases |events|
  {
    if events == [] {
      level := 0;
      assert EventSet(events) == {};
    } else {
      var rest := StrongestOf(events[1..]);
      assert events == [events[0]] + events[1..];
      assert EventSet(events) == EventSet(events[1..]) + {events[0]};
      level := if Evidence(events[0]) > rest then Evidence(events[0]) else rest;
      if level == Evidence(events[0]) {
        assert events[0] in EventSet(events) && Evidence(events[0]) == level;
      } else {
        var top :| top in EventSet(events[1..]) && Evidence(top) == rest;
        assert top in EventSet(events);
      }
    }
  }

  /** Two histories with the same set of events end alike, hard bounces aside. */
  lemma FoldDependsOnSet(state: RowState, first: seq<DeliveryEvent>, second: seq<DeliveryEvent>)
    requires !Terminal(state) && EventSet(first) == EventSet(second) && EventHardBounce !in first
    ensures Fold(state, first) == Fold(state, second)
  {
    assert EventHardBounce !in EventSet(first);
    var level := StrongestOf(first);
    FoldIsStrongest(state, first, level);
    FoldIsStrongest(state, second, level);
  }

  predicate ProvesArrival(event: DeliveryEvent) {
    event == EventDelivered || event == EventHumanOpen || event == EventClick || event == EventSpamComplaint
  }

  /** A hard bounce occurs before any event that proves the message arrived. */
  ghost predicate BouncesFirst(events: seq<DeliveryEvent>) {
    exists i :: 0 <= i < |events| && events[i] == EventHardBounce
      && forall j :: 0 <= j < i ==> !ProvesArrival(events[j])
  }

  /** From a state that is neither terminal nor delivered, a recipient ends hard
      bounced exactly when a hard bounce precedes every proof of arrival. */
  lemma {:induction false} BounceWinsIffFirst(state: RowState, events: seq<DeliveryEvent>)
    requires Unreported(state) || state == Sent
    ensures Fold(state, events) == HardBounced <==> BouncesFirst(events)
    decreases |events|
  {
    if events != [] {
      var e, rest := events[0], events[1..];
      var next := EventState(state, e);
      if e == EventHardBounce {
        FoldNeverLowers(next, rest);
        assert events[0] == EventHardBounce;
      } else if ProvesArrival(e) {
        NeverBouncesAfterArrival(next, rest);
      } else {
        BounceWinsIffFirst(next, rest);
        assert forall i :: 0 <= i < |rest| ==> rest[i] == events[i + 1];
        if BouncesFirst(rest) {
          var i :| 0 <= i < |rest| && rest[i] == EventHardBounce && forall j :: 0 <= j < i ==> !ProvesArrival(rest[j]);
          assert events[i + 1] == EventHardBounce;
          forall j | 0 <= j < i + 1 ensures !ProvesArrival(events[j]) { if j > 0 { assert events[j] == rest[j - 1]; } }
        }
        if BouncesFirst(events) {
          var i :| 0 <= i < |events| && events[i] == EventHardBounce
            && forall j :: 0 <= j < i ==> !ProvesArrival(events[j]);
          assert rest[i - 1] == EventHardBounce;
        }
      }
    }
  }

  lemma {:induction false} NeverBouncesAfterArrival(state: RowState, events: seq<DeliveryEvent>)
    requires state == Delivered || state == Opened || state == Clicked || state == SpamComplaint
    ensures Fold(state, events) != HardBounced
    decreases |events|
  {
    if events != [] {
      NeverBouncesAfterArrival(EventState(state, events[0]), events[1..]);
    }
  }

  /** The events without the hard bounces. */
  function WithoutBounces(events: seq<DeliveryEvent>): seq<DeliveryEvent> {
    if events == [] then []
    else (if events[0] == EventHardBounce then [] else [events[0]]) + WithoutBounces(events[1..])
  }

  /** Once a message has arrived, hard bounces change nothing any more. */
  lemma {:induction false} LateBouncesIgnored(state: RowState, events: seq<DeliveryEvent>)
    requires state == Delivered || state == Opened || state == Clicked || Terminal(state)
    ensures Fold(state, events) == Fold(state, WithoutBounces(events))
    decreases |events|
  {
    if events != [] {
      LateBouncesIgnored(EventState(state, events[0]), events[1..]);
      if events[0] != EventHardBounce {
        assert WithoutBounces(events)[1..] == WithoutBounces(events[1..]);
      } else {
        assert WithoutBounces(events) == WithoutBounces(events[1..]);
      }
    }
  }
}

/** Work waiting for its time: a priority queue ordered by run time and, among
    equal times, by sequence number. It is kept as the sorted list that popping a
    binary heap would produce. */
module Agenda {

  datatype Entry<T> = Entry(runAt: real, sequence: nat, item: T)

  predicate Earlier<T>(a: Entry<T>, b: Entry<T>) {
    a.runAt < b.runAt || (a.runAt == b.runAt && a.sequence < b.sequence)
  }

  ghost predicate Sorted<T>(s: seq<Entry<T>>) {
    forall i, j :: 0 <= i < j < |s| ==> Earlier(s[i], s[j])
  }

  /** Every sequence number is below the next one to be given out. */
  ghost predicate Numbered<T>(s: seq<Entry<T>>, next: nat) {
    forall i :: 0 <= i < |s| ==> s[i].sequence < next
  }

  function Push<T>(s: seq<Entry<T>>, e: Entry<T>): seq<Entry<T>> {
    if s == [] then [e]
    else if Earlier(e, s[0]) then [e] + s
    else [s[0]] + Push(s[1..], e)
  }

  lemma {:induction false} PushContents<T>(s: seq<Entry<T>>, e: Entry<T>)
    ensures |Push(s, e)| == |s| + 1 && multiset(Push(s, e)) == multiset(s) + multiset{e}
    ensures forall x :: x in Push(s, e) <==> x == e || x in s
    decreases |s|
  {
    if s != [] {
      assert s == [s[0]] + s[1..];
      if !Earlier(e, s[0]) { PushContents(s[1..], e); }
    }
  }

  ghost predicate AllAfter<T>(low: Entry<T>, s: seq<Entry<T>>) {
    forall i :: 0 <= i < |s| ==> Earlier(low, s[i])
  }

  lemma SortedCons<T>(low: Entry<T>, s: seq<Entry<T>>)
    requires Sorted(s) && AllAfter(low, s)
    ensures Sorted([low] + s)
  {
  }

  lemma {:induction false} PushAfter<T>(low: Entry<T>, s: seq<Entry<T>>, e: Entry<T>)
    requires AllAfter(low, s) && Earlier(low, e)
    ensures AllAfter(low, Push(s, e))
    decreases |s|
  {
    if s != [] && !Earlier(e, s[0]) { PushAfter(low, s[1..], e); }
  }

  lemma {:induction false} PushNumbered<T>(s: seq<Entry<T>>, e: Entry<T>)
    requires Numbered(s, e.sequence)
    ensures Numbered(Push(s, e), e.sequence + 1)
    decreases |s|
  {
    if s != [] && !Earlier(e, s[0]) { PushNumbered(s[1..], e); }
  }

  lemma {:induction false} PushSorted<T>(s: seq<Entry<T>>, e: Entry<T>)
    requires Sorted(s) && Numbered(s, e.sequence)
    ensures Sorted(Push(s, e)) && Numbered(Push(s, e), e.sequence + 1)
    decreases |s|
  {
    PushNumbered(s, e);
    if s != [] {
      if Earlier(e, s[0]) {
        SortedCons(e, s);
      } else {
        PushSorted(s[1..], e);
        PushAfter(s[0], s[1..], e);
        SortedCons(s[0], Push(s[1..], e));
      }
    }
  }

  /** How many entries at the front are due. */
  function DueCount<T>(s: seq<Entry<T>>, now: real): (n: nat)
    ensures n <= |s|
  {
    if s != [] && s[0].runAt <= now then 1 + DueCount(s[1..], now) else 0
  }

  /** In a sorted agenda the due entries are exactly a prefix. */
  lemma {:induction false} DueIsPrefix<T>(s: seq<Entry<T>>, now: real)
    requires Sorted(s)
    ensures forall i :: 0 <= i < |s| ==> (s[i].runAt <= now <==> i < DueCount(s, now))
    decreases |s|
  {
    if s != [] && s[0].runAt <= now {
      DueIsPrefix(s[1..], now);
      forall i | 0 <= i < |s| ensures s[i].runAt <= now <==> i < DueCount(s, now) {
        if i > 0 { assert s[i] == s[1..][i - 1]; }
      }
    } else {
      forall i | 0 <= i < |s| ensures s[i].runAt > now {
        if i > 0 { assert Earlier(s[0], s[i]); }
      }
    }
  }

  lemma DueSplit<T>(s: seq<Entry<T>>, now: real, e: Entry<T>)
    requires Sorted(s)
    ensures e in s[..DueCount(s, now)] <==> e in s && e.runAt <= now
    ensures e in s[DueCount(s, now)..] <==> e in s && e.runAt > now
  {
    var due := DueCount(s, now);
    DueIsPrefix(s, now);
    if e in s {
      var i :| 0 <= i < |s| && s[i] == e;
      if i < due { assert s[..due][i] == e; } else { assert s[due..][i - due] == e; }
    }
    if e in s[..due] {
      var i :| 0 <= i < due && s[..due][i] == e;
      assert s[i] == e;
    }
    if e in s[due..] {
      var i :| 0 <= i < |s| - due && s[due..][i] == e;
      assert s[due + i] == e;
    }
  }

  function Items<T>(s: seq<Entry<T>>): seq<T> {
    seq(|s|, i requires 0 <= i < |s| => s[i].item)
  }

  /** A new entry goes behind everything due at its time or before, so entries of one
      time leave in the order they came. */
  lemma {:induction false} PushPlace<T>(s: seq<Entry<T>>, e: Entry<T>)
    requires Sorted(s) && Numbered(s, e.sequence)
    ensures var n := DueCount(s, e.runAt);
      Push(s, e) == s[..n] + [e] + s[n..] && forall i :: 0 <= i < |s| ==> (s[i].runAt <= e.runAt <==> i < n)
    decreases |s|
  {
    DueIsPrefix(s, e.runAt);
    if s != [] && !Earlier(e, s[0]) {
      PushPlace(s[1..], e);
      var n := DueCount(s[1..], e.runAt);
      assert s[..n + 1] == [s[0]] + s[1..][..n];
    } else if s != [] {
      assert s[..0] + [e] + s[0..] == [e] + s;
    }
  }
}

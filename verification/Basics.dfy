/** Small shared vocabulary: optional values, outcomes of fallible calls, and
    facts about duplicate-free sequences and orderings. */
module Basics {

  datatype Option<+T> = None | Some(value: T)

  datatype Outcome<+T, +E> = Ok(value: T) | Err(error: E)

  type Time = int

  ghost predicate NoDuplicates<T>(s: seq<T>) {
    forall i, j :: 0 <= i < j < |s| ==> s[i] != s[j]
  }

  /** `s` lists exactly the members of `elements`, each once. */
  ghost predicate Lists<T(!new)>(s: seq<T>, elements: set<T>) {
    && NoDuplicates(s)
    && forall x :: x in s <==> x in elements
  }

  /** Lexicographic order on text, the order of a primary-key column. */
  predicate TextLeq(a: string, b: string) {
    if a == [] then true
    else if b == [] then false
    else if a[0] == b[0] then TextLeq(a[1..], b[1..])
    else a[0] < b[0]
  }

  lemma {:induction false} TextLeqTotal(a: string, b: string)
    ensures TextLeq(a, b) || TextLeq(b, a)
    ensures TextLeq(a, b) && TextLeq(b, a) ==> a == b
    decreases |a|
  {
    if a != [] && b != [] && a[0] == b[0] {
      TextLeqTotal(a[1..], b[1..]);
      assert a == [a[0]] + a[1..] && b == [b[0]] + b[1..];
    }
  }

  lemma {:induction false} TextLeqTransitive(a: string, b: string, c: string)
    requires TextLeq(a, b) && TextLeq(b, c)
    ensures TextLeq(a, c)
    decreases |a|
  {
    if a != [] && b != [] && c != [] && a[0] == b[0] == c[0] {
      TextLeqTransitive(a[1..], b[1..], c[1..]);
    }
  }

  /** The first difference decides, and a prefix comes first. */
  ghost predicate DecidedAt(a: string, b: string, i: int) {
    0 <= i < |a| && i < |b| && a[..i] == b[..i] && a[i] < b[i]
  }

  lemma {:induction false} TextLeqDecides(a: string, b: string)
    ensures TextLeq(a, b) <==> a <= b || exists i :: DecidedAt(a, b, i)
    decreases |a|
  {
    if a != [] && b != [] {
      if a[0] == b[0] {
        TextLeqDecides(a[1..], b[1..]);
        assert a <= b <==> a[1..] <= b[1..];
        if i :| DecidedAt(a[1..], b[1..], i) {
          assert a[..i + 1] == [a[0]] + a[1..][..i] && b[..i + 1] == [b[0]] + b[1..][..i];
          assert DecidedAt(a, b, i + 1);
        }
        if i :| DecidedAt(a, b, i) {
          assert i > 0;
          assert a[1..][..i - 1] == a[..i][1..] && b[1..][..i - 1] == b[..i][1..];
          assert DecidedAt(a[1..], b[1..], i - 1);
        }
      } else {
        assert a[..0] == b[..0];
        if a[0] < b[0] { assert DecidedAt(a, b, 0); }
        if i :| DecidedAt(a, b, i) { assert i > 0 ==> a[..i][0] == b[..i][0]; }
      }
    }
  }
}

/** Fanout: turning keyed targets into child cells whose ids are derived from the
    parent id and the key, so that expanding again names the same children.

    Go strings are byte strings here. The digest is a parameter. */
module Fanout {
  import opened Basics
  import opened Cells

  type byte = x: int | 0 <= x < 256
  type Bytes = seq<byte>
  type Digest = Bytes -> Bytes

  // ----- Length-prefixed parts -----

  /** The `width` low-order bytes of `n`, most significant first. */
  function BigEndian(n: nat, width: nat): Bytes {
    if width == 0 then [] else BigEndian(n / 256, width - 1) + [n % 256]
  }

  function Power(base: nat, exponent: nat): nat {
    if exponent == 0 then 1 else base * Power(base, exponent - 1)
  }

  /** The number written in base 256, most significant byte first. */
  function Number(bytes: Bytes): nat {
    if bytes == [] then 0 else 256 * Number(bytes[..|bytes| - 1]) + bytes[|bytes| - 1]
  }

  lemma {:induction false} BigEndianReads(n: nat, width: nat)
    requires n < Power(256, width)
    ensures |BigEndian(n, width)| == width && Number(BigEndian(n, width)) == n
    decreases width
  {
    if width > 0 {
      BigEndianReads(n / 256, width - 1);
      assert BigEndian(n, width)[..width - 1] == BigEndian(n / 256, width - 1);
    }
  }

  lemma {:induction false} BigEndianInjective(m: nat, n: nat, width: nat)
    requires m < Power(256, width) && n < Power(256, width)
    ensures |BigEndian(m, width)| == width
    ensures BigEndian(m, width) == BigEndian(n, width) ==> m == n
    decreases width
  {
    if width > 0 {
      BigEndianInjective(m / 256, n / 256, width - 1);
      BigEndianInjective(n / 256, m / 256, width - 1);
      if BigEndian(m, width) == BigEndian(n, width) {
        assert BigEndian(m, width)[..width - 1] == BigEndian(m / 256, width - 1);
        assert BigEndian(n, width)[..width - 1] == BigEndian(n / 256, width - 1);
        assert BigEndian(m, width)[width - 1] == m % 256 && BigEndian(n, width)[width - 1] == n % 256;
      }
    }
  }

  const LENGTH_BYTES: nat := 8

  /** Lengths that fit the eight-byte prefix, as every length in memory does. */
  ghost predicate Fits(parts: seq<Bytes>) {
    forall i :: 0 <= i < |parts| ==> |parts[i]| < Power(256, LENGTH_BYTES)
  }

  function Prefixed(part: Bytes): Bytes { BigEndian(|part|, LENGTH_BYTES) + part }

  function Encode(parts: seq<Bytes>): Bytes {
    if parts == [] then [] else Prefixed(parts[0]) + Encode(parts[1..])
  }

  /** Two encodings that start with the same bytes start with the same part. */
  lemma PrefixedSplits(a: Bytes, restA: Bytes, b: Bytes, restB: Bytes)
    requires |a| < Power(256, LENGTH_BYTES) && |b| < Power(256, LENGTH_BYTES)
    requires Prefixed(a) + restA == Prefixed(b) + restB
    ensures a == b && restA == restB
  {
    BigEndianInjective(|a|, |b|, LENGTH_BYTES);
    BigEndianInjective(|b|, |a|, LENGTH_BYTES);
    var whole := Prefixed(a) + restA;
    assert whole[..LENGTH_BYTES] == BigEndian(|a|, LENGTH_BYTES);
    assert (Prefixed(b) + restB)[..LENGTH_BYTES] == BigEndian(|b|, LENGTH_BYTES);
    assert whole[LENGTH_BYTES..][..|a|] == a && (Prefixed(b) + restB)[LENGTH_BYTES..][..|b|] == b;
    assert whole[LENGTH_BYTES + |a|..] == restA && (Prefixed(b) + restB)[LENGTH_BYTES + |b|..] == restB;
  }

  /** Length prefixes make the encoding of any lists of parts injective. */
  lemma {:induction false} EncodeInjective(p: seq<Bytes>, q: seq<Bytes>)
    requires Fits(p) && Fits(q) && Encode(p) == Encode(q)
    ensures p == q
    decreases |p|
  {
    if p != [] && q != [] {
      PrefixedSplits(p[0], Encode(p[1..]), q[0], Encode(q[1..]));
      EncodeInjective(p[1..], q[1..]);
      assert p == [p[0]] + p[1..] && q == [q[0]] + q[1..];
    } else {
      EncodeEmpty(p);
      EncodeEmpty(q);
    }
  }

  lemma EncodeEmpty(p: seq<Bytes>)
    requires Fits(p)
    ensures Encode(p) == [] <==> p == []
  {
    if p != [] { BigEndianInjective(|p[0]|, |p[0]|, LENGTH_BYTES); }
  }

  // ----- Child ids -----

  function HexDigit(n: nat): char
    requires n < 16
  {
    if n < 10 then '0' + n as char else 'a' + (n - 10) as char
  }

  function Hex(bytes: Bytes): string {
    if bytes == [] then [] else [HexDigit(bytes[0] / 16), HexDigit(bytes[0] % 16)] + Hex(bytes[1..])
  }

  lemma {:induction false} HexInjective(a: Bytes, b: Bytes)
    requires Hex(a) == Hex(b)
    ensures a == b
    decreases |a|
  {
    if a != [] && b != [] {
      assert Hex(a)[0] == Hex(b)[0] && Hex(a)[1] == Hex(b)[1];
      assert Hex(a)[2..] == Hex(a[1..]) && Hex(b)[2..] == Hex(b[1..]);
      HexInjective(a[1..], b[1..]);
      assert a == [a[0]] + a[1..] && b == [b[0]] + b[1..];
    }
  }

  /** The bytes of "cellar/fanout-child/v1". */
  const DOMAIN: Bytes := [
    0x63, 0x65, 0x6c, 0x6c, 0x61, 0x72, 0x2f, 0x66, 0x61, 0x6e, 0x6f, 0x75, 0x74, 0x2d,
    0x63, 0x68, 0x69, 0x6c, 0x64, 0x2f, 0x76, 0x31]

  function Preimage(parent: Bytes, key: Bytes): Bytes { DOMAIN + Encode([parent, key]) }

  function ChildId(digest: Digest, parent: Bytes, key: Bytes): CellId {
    "fanout:" + Hex(digest(Preimage(parent, key)))
  }

  /** Writes the domain and the two length-prefixed parts into the digest in turn. */
  method DeriveChildId(digest: Digest, parent: Bytes, key: Bytes) returns (id: CellId)
    ensures id == ChildId(digest, parent, key)
  {
    var written := DOMAIN;
    var parts := [parent, key];
    for i := 0 to |parts|
      invariant written + Encode(parts[i..]) == DOMAIN + Encode(parts)
    {
      var length := BigEndian(|parts[i]|, LENGTH_BYTES);
      calc {
        written + length + parts[i] + Encode(parts[i + 1..]);
        written + (Prefixed(parts[i]) + Encode(parts[i + 1..]));
        { assert parts[i..][0] == parts[i] && parts[i..][1..] == parts[i + 1..]; }
        written + Encode(parts[i..]);
      }
      written := written + length + parts[i];
    }
    assert parts[|parts|..] == [] && written + [] == written;
    return "fanout:" + Hex(digest(written));
  }

  /** Two different inputs of the digest with the same output. */
  ghost predicate Collide(digest: Digest, x: Bytes, y: Bytes) {
    x != y && digest(x) == digest(y)
  }

  /** Children coincide exactly when parent and key do, or the digest collides on them. */
  lemma ChildIdsDistinct(digest: Digest, p: Bytes, k: Bytes, q: Bytes, l: Bytes)
    requires Fits([p, k]) && Fits([q, l])
    ensures ChildId(digest, p, k) == ChildId(digest, q, l)
      <==> (p == q && k == l) || Collide(digest, Preimage(p, k), Preimage(q, l))
  {
    if Preimage(p, k) == Preimage(q, l) {
      assert Preimage(p, k)[|DOMAIN|..] == Encode([p, k]) && Preimage(q, l)[|DOMAIN|..] == Encode([q, l]);
      EncodeInjective([p, k], [q, l]);
      assert [p, k][0] == [q, l][0] && [p, k][1] == [q, l][1];
    }
    if ChildId(digest, p, k) == ChildId(digest, q, l) {
      assert ChildId(digest, p, k)[7..] == Hex(digest(Preimage(p, k)));
      assert ChildId(digest, q, l)[7..] == Hex(digest(Preimage(q, l)));
      HexInjective(digest(Preimage(p, k)), digest(Preimage(q, l)));
    }
  }

  // ----- Expanding targets -----

  datatype FanoutError = KeyRequired | KeyDuplicate(key: Bytes) | CellRequired | CellBroken(key: Bytes)

  /** What a target's cell definition gives: nothing, an error, or steps and an earliest time. */
  datatype Definition<P> = Absent | Broken | Defined(steps: seq<CellStep<P>>, notBefore: Option<Time>)

  datatype Target<P> = Target(key: Bytes, cell: Definition<P>, notBefore: Option<Time>)

  /** The child of one target; a target's own time replaces that of its definition. */
  function ChildOf<P>(digest: Digest, parent: Bytes, target: Target<P>): Request<P>
    requires target.cell.Defined?
  {
    Request(ChildId(digest, parent, target.key), target.cell.steps,
            if target.notBefore.Some? then target.notBefore else target.cell.notBefore)
  }

  /** What is wrong with target `i`, given the ones before it. */
  function ProblemAt<P>(targets: seq<Target<P>>, i: nat): Option<FanoutError>
    requires i < |targets|
  {
    if targets[i].key == [] then Some(KeyRequired)
    else if exists j :: 0 <= j < i && targets[j].key == targets[i].key then Some(KeyDuplicate(targets[i].key))
    else match targets[i].cell
      case Absent => Some(CellRequired)
      case Broken => Some(CellBroken(targets[i].key))
      case Defined(_, _) => None
  }

  ghost predicate FirstProblem<P>(targets: seq<Target<P>>, i: int, e: FanoutError) {
    0 <= i < |targets| && ProblemAt(targets, i) == Some(e) && forall j :: 0 <= j < i ==> ProblemAt(targets, j).None?
  }

  /** Stops at the first target with a problem; otherwise one child per target, in order. */
  method IdentifyTargets<P>(digest: Digest, parent: Bytes, targets: seq<Target<P>>)
    returns (r: Outcome<seq<Request<P>>, FanoutError>)
    ensures r.Ok? <==>
      && (forall i :: 0 <= i < |targets| ==> targets[i].key != [] && targets[i].cell.Defined?)
      && (forall i, j :: 0 <= i < j < |targets| ==> targets[i].key != targets[j].key)
    ensures r.Ok? ==> |r.value| == |targets|
    // A target's own time replaces that of its definition.
    ensures forall i :: r.Ok? && 0 <= i < |targets| ==>
      && targets[i].cell.Defined? && r.value[i] == ChildOf(digest, parent, targets[i])
      && r.value[i].id == ChildId(digest, parent, targets[i].key) && r.value[i].steps == targets[i].cell.steps
      && r.value[i].notBefore == (if targets[i].notBefore.Some? then targets[i].notBefore else targets[i].cell.notBefore)
    ensures r.Err? ==> exists i :: FirstProblem(targets, i, r.error)
  {
    var children: seq<Request<P>> := [];
    var keys: set<Bytes> := {};
    for i := 0 to |targets|
      invariant |children| == i && keys == set j | 0 <= j < i :: targets[j].key
      invariant forall j :: 0 <= j < i ==> ProblemAt(targets, j).None? && children[j] == ChildOf(digest, parent, targets[j])
    {
      var target := targets[i];
      assert target.key in keys <==> exists j :: 0 <= j < i && targets[j].key == target.key;
      ghost var problem := ProblemAt(targets, i);
      assert problem.Some? ==> FirstProblem(targets, i, problem.value);
      if target.key == [] { return Err(KeyRequired); }
      if target.key in keys { return Err(KeyDuplicate(target.key)); }
      keys := keys + {target.key};
      if target.cell == Absent { return Err(CellRequired); }
      if target.cell == Broken { return Err(CellBroken(target.key)); }
      var id := DeriveChildId(digest, parent, target.key);
      var notBefore := target.cell.notBefore;
      if target.notBefore.Some? { notBefore := target.notBefore; }
      children := children + [Request(id, target.cell.steps, notBefore)];
    }
    return Ok(children);
  }

  /** Children of accepted expansions never share an id across positions or
      parents, unless the digest collides. */
  lemma ChildrenDistinct<P>(
    digest: Digest, p: Bytes, targets: seq<Target<P>>, i: nat, q: Bytes, others: seq<Target<P>>, j: nat)
    requires i < |targets| && j < |others| && (p != q || (targets == others && i != j))
    requires forall n :: 0 <= n < |targets| ==> ProblemAt(targets, n).None?
    requires forall n :: 0 <= n < |others| ==> ProblemAt(others, n).None?
    requires Fits([p, targets[i].key]) && Fits([q, others[j].key])
    requires !Collide(digest, Preimage(p, targets[i].key), Preimage(q, others[j].key))
    ensures targets[i].cell.Defined? && others[j].cell.Defined?
    ensures ChildOf(digest, p, targets[i]).id != ChildOf(digest, q, others[j]).id
  {
    assert ProblemAt(targets, i).None? && ProblemAt(others, j).None?;
    ChildIdsDistinct(digest, p, targets[i].key, q, others[j].key);
    if p == q {
      assert targets[i].key != others[j].key;
    }
  }
}

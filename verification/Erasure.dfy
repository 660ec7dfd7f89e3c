/** The 2-of-4 code: two data halves d0, d1 and two parity shards

      p0 = d0 + d1
      p1 = 2 . d0 + 3 . d1      over GF(2^8),

    any two of which determine the other two. */
module Erasure {
  import opened Gf2Poly
  import opened Bytes
  import opened Gf256

  datatype Shard = D0 | D1 | P0 | P1
  datatype ShardPair = ShardPair(a: Shard, b: Shard)

  // ----- the code, one byte at a time -----

  function ShardByte(s: Shard, x: byte, y: byte): byte {
    match s
    case D0 => x
    case D1 => y
    case P0 => Add(x, y)
    case P1 => Add(GfMul(x, 2), GfMul(y, 3))
  }

  /** The six combinations there is a recovery rule for. */
  predicate Recoverable(pair: ShardPair) {
    pair == ShardPair(D0, D1) || pair == ShardPair(D0, P0) || pair == ShardPair(D1, P0)
    || pair == ShardPair(D0, P1) || pair == ShardPair(D1, P1) || pair == ShardPair(P0, P1)
  }

  function DecodeByte(pair: ShardPair, a: byte, b: byte): (xy: (byte, byte))
    requires Recoverable(pair)
  {
    match pair
    case ShardPair(D0, D1) => (a, b)
    case ShardPair(D0, P0) => (a, Add(a, b))
    case ShardPair(D1, P0) => (Add(a, b), a)
    case ShardPair(D0, P1) => (a, GfMul(Add(b, GfMul(a, 2)), Inverse(3)))
    case ShardPair(D1, P1) => (GfMul(Add(b, GfMul(a, 3)), Inverse(2)), a)
    case _ => (Add(a, Add(b, GfMul(a, 2))), Add(b, GfMul(a, 2)))
  }

  /** 3 . y = 2 . y + y */
  lemma {:induction false} TripleIsDoublePlusOne(y: byte)
    ensures GfMul(y, 3) == Add(GfMul(y, 2), y)
  {
    XorLow(1, 1);
    assert Add(1, 2) == 3;
    XorComm(1, 2);
    GfMulDistrib(2, 1, y);
    GfMulOne(y);
  }

  /** p1 + 2 . p0 = d1 */
  lemma {:induction false} ParityDifference(x: byte, y: byte)
    ensures Add(ShardByte(P1, x, y), GfMul(ShardByte(P0, x, y), 2)) == y
  {
    TripleIsDoublePlusOne(y);
    GfMulDistrib(x, y, 2);
    var x2, y2 := GfMul(x, 2), GfMul(y, 2);
    XorAssoc(x2, y2, y);
    XorComm(Add(x2, y2), y);
    XorCancel(Add(x2, y2), y);
  }

  lemma {:induction false} DecodeEncodeByte(pair: ShardPair, x: byte, y: byte)
    requires Recoverable(pair)
    ensures DecodeByte(pair, ShardByte(pair.a, x, y), ShardByte(pair.b, x, y)) == (x, y)
  {
    match pair
    case ShardPair(D0, D1) =>
    case ShardPair(D0, P0) => XorCancel(x, y);
    case ShardPair(D1, P0) => XorCancel(y, x);
    case ShardPair(D0, P1) =>
      XorCancel(GfMul(x, 2), GfMul(y, 3));
      ScaleRoundTrip(y, 3);
    case ShardPair(D1, P1) =>
      XorCancel(GfMul(y, 3), GfMul(x, 2));
      ScaleRoundTrip(x, 2);
    case _ =>
      ParityDifference(x, y);
      XorCancel(y, x);
  }

  lemma {:induction false} EncodeDecodeByte(pair: ShardPair, a: byte, b: byte)
    requires Recoverable(pair)
    ensures var (x, y) := DecodeByte(pair, a, b);
            ShardByte(pair.a, x, y) == a && ShardByte(pair.b, x, y) == b
  {
    if pair == ShardPair(D0, P0) || pair == ShardPair(D1, P0) {
      XorCancel(a, b);
    } else if pair == ShardPair(D0, P1) {
      ScaleRoundTrip(Add(b, GfMul(a, 2)), 3);
      XorCancel(GfMul(a, 2), b);
    } else if pair == ShardPair(D1, P1) {
      ScaleRoundTrip(Add(b, GfMul(a, 3)), 2);
      XorCancel(GfMul(a, 3), b);
    } else if pair == ShardPair(P0, P1) {
      var y := Add(b, GfMul(a, 2));
      var x := Add(a, y);
      XorCancel(y, a);
      ParityDifference(x, y);
      XorCancel(GfMul(a, 2), ShardByte(P1, x, y));
      XorCancel(GfMul(a, 2), b);
    }
  }

  // ----- whole buffers -----

  function EncodeShard(s: Shard, d0: seq<byte>, d1: seq<byte>): (r: seq<byte>)
    requires |d0| == |d1|
    ensures |r| == |d0|
  {
    seq(|d0|, i requires 0 <= i < |d0| => ShardByte(s, d0[i], d1[i]))
  }

  function Decode(pair: ShardPair, a: seq<byte>, b: seq<byte>): (d: (seq<byte>, seq<byte>))
    requires Recoverable(pair) && |a| == |b|
    ensures |d.0| == |d.1| == |a|
  {
    (seq(|a|, i requires 0 <= i < |a| => DecodeByte(pair, a[i], b[i]).0),
     seq(|a|, i requires 0 <= i < |a| => DecodeByte(pair, a[i], b[i]).1))
  }

  /** Any recoverable pair of shards gives both data halves back. */
  lemma {:induction false} DecodeEncode(pair: ShardPair, d0: seq<byte>, d1: seq<byte>)
    requires Recoverable(pair) && |d0| == |d1|
    ensures Decode(pair, EncodeShard(pair.a, d0, d1), EncodeShard(pair.b, d0, d1)) == (d0, d1)
  {
    forall i | 0 <= i < |d0|
      ensures DecodeByte(pair, ShardByte(pair.a, d0[i], d1[i]), ShardByte(pair.b, d0[i], d1[i])) == (d0[i], d1[i])
    {
      DecodeEncodeByte(pair, d0[i], d1[i]);
    }
    var d := Decode(pair, EncodeShard(pair.a, d0, d1), EncodeShard(pair.b, d0, d1));
    assert d.0 == d0 && d.1 == d1;
  }

  /** Any two buffers are the shards of exactly the halves they decode to. */
  lemma {:induction false} EncodeDecode(pair: ShardPair, a: seq<byte>, b: seq<byte>)
    requires Recoverable(pair) && |a| == |b|
    ensures var (d0, d1) := Decode(pair, a, b);
            EncodeShard(pair.a, d0, d1) == a && EncodeShard(pair.b, d0, d1) == b
  {
    var (d0, d1) := Decode(pair, a, b);
    forall i | 0 <= i < |a|
      ensures ShardByte(pair.a, d0[i], d1[i]) == a[i] && ShardByte(pair.b, d0[i], d1[i]) == b[i]
    {
      EncodeDecodeByte(pair, a[i], b[i]);
    }
  }

  /** Working slice by slice gives the same shards as one pass over the whole. */
  lemma {:induction false} EncodeSlices(s: Shard, d0: seq<byte>, d1: seq<byte>, e0: seq<byte>, e1: seq<byte>)
    requires |d0| == |d1| && |e0| == |e1|
    ensures EncodeShard(s, d0 + e0, d1 + e1) == EncodeShard(s, d0, d1) + EncodeShard(s, e0, e1)
  {
  }

  lemma {:induction false} DecodeSlices(pair: ShardPair, a: seq<byte>, b: seq<byte>, a': seq<byte>, b': seq<byte>)
    requires Recoverable(pair) && |a| == |b| && |a'| == |b'|
    ensures Decode(pair, a + a', b + b').0 == Decode(pair, a, b).0 + Decode(pair, a', b').0
    ensures Decode(pair, a + a', b + b').1 == Decode(pair, a, b).1 + Decode(pair, a', b').1
  {
  }

  // ----- the source's routines -----

  function Flat(parts: seq<seq<byte>>): seq<byte> {
    if parts == [] then [] else parts[0] + Flat(parts[1..])
  }

  predicate SameShape(a: seq<seq<byte>>, b: seq<seq<byte>>) {
    |a| == |b| && forall i :: 0 <= i < |a| ==> |a[i]| == |b[i]|
  }

  lemma {:induction false} SameLength(a: seq<seq<byte>>, b: seq<seq<byte>>)
    requires SameShape(a, b)
    ensures |Flat(a)| == |Flat(b)|
  {
    if a != [] {
      SameLength(a[1..], b[1..]);
    }
  }

  function EncodeEach(s: Shard, d0: seq<seq<byte>>, d1: seq<seq<byte>>): seq<seq<byte>>
    requires SameShape(d0, d1)
  {
    if d0 == [] then [] else [EncodeShard(s, d0[0], d1[0])] + EncodeEach(s, d0[1..], d1[1..])
  }

  /** Over any partition of the two halves, the shards of the pieces make up the shard
      of the whole. */
  lemma {:induction false} EncodePartition(s: Shard, d0: seq<seq<byte>>, d1: seq<seq<byte>>)
    requires SameShape(d0, d1)
    ensures |Flat(d0)| == |Flat(d1)| && EncodeShard(s, Flat(d0), Flat(d1)) == Flat(EncodeEach(s, d0, d1))
    decreases |d0|
  {
    hide EncodeShard;
    SameLength(d0, d1);
    if d0 == [] {
      EncodeNothing(s);
    } else {
      SameLength(d0[1..], d1[1..]);
      EncodePartition(s, d0[1..], d1[1..]);
      EncodeSlices(s, d0[0], d1[0], Flat(d0[1..]), Flat(d1[1..]));
      assert EncodeEach(s, d0, d1)[1..] == EncodeEach(s, d0[1..], d1[1..]);
    }
  }

  lemma {:induction false} EncodeNothing(s: Shard)
    ensures EncodeShard(s, [], []) == []
  {
  }

  function DecodeEach(pair: ShardPair, a: seq<seq<byte>>, b: seq<seq<byte>>): (d: (seq<seq<byte>>, seq<seq<byte>>))
    requires Recoverable(pair) && SameShape(a, b)
  {
    if a == [] then ([], [])
    else
      var first, rest := Decode(pair, a[0], b[0]), DecodeEach(pair, a[1..], b[1..]);
      ([first.0] + rest.0, [first.1] + rest.1)
  }

  /** And the pieces recovered make up the halves recovered from the whole. */
  lemma {:induction false} DecodePartition(pair: ShardPair, a: seq<seq<byte>>, b: seq<seq<byte>>)
    requires Recoverable(pair) && SameShape(a, b)
    ensures |Flat(a)| == |Flat(b)|
    ensures Decode(pair, Flat(a), Flat(b)) == (Flat(DecodeEach(pair, a, b).0), Flat(DecodeEach(pair, a, b).1))
    decreases |a|
  {
    hide Decode, Recoverable;
    SameLength(a, b);
    if a == [] {
      DecodeNothing(pair);
    } else {
      SameLength(a[1..], b[1..]);
      DecodePartition(pair, a[1..], b[1..]);
      DecodeSlices(pair, a[0], b[0], Flat(a[1..]), Flat(b[1..]));
      var d := DecodeEach(pair, a, b);
      assert d.0[1..] == DecodeEach(pair, a[1..], b[1..]).0 && d.1[1..] == DecodeEach(pair, a[1..], b[1..]).1;
    }
  }

  lemma {:induction false} DecodeNothing(pair: ShardPair)
    requires Recoverable(pair)
    ensures Decode(pair, [], []) == ([], [])
  {
  }

  method MakeParity0(d0: array<byte>, d1: array<byte>, n: nat, out: array<byte>)
    requires n <= d0.Length && n <= d1.Length && n <= out.Length
    modifies out
    ensures out[..n] == EncodeShard(P0, old(d0[..n]), old(d1[..n])) && out[n..] == old(out[n..])
  {
    XorInto(d0, d1, n, out);
  }

  method MakeParity1(d0: array<byte>, d1: array<byte>, n: nat, out: array<byte>)
    requires n <= d0.Length && n <= d1.Length && n <= out.Length
    modifies out
    ensures out[..n] == EncodeShard(P1, old(d0[..n]), old(d1[..n])) && out[n..] == old(out[n..])
  {
    for i := 0 to n
      invariant forall k :: 0 <= k < i ==> out[k] == ShardByte(P1, old(d0[k]), old(d1[k]))
      invariant forall k :: i <= k < d0.Length ==> d0[k] == old(d0[k])
      invariant forall k :: i <= k < d1.Length ==> d1[k] == old(d1[k])
      invariant forall k :: n <= k < out.Length ==> out[k] == old(out[k])
    {
      var twice := Mul(d0[i], 2);
      var thrice := Mul(d1[i], 3);
      out[i] := Add(twice, thrice);
    }
  }

  /** Cheapest first: the plain copy, the XOR rules, then the two inverses. */
  const ORDER: seq<ShardPair> := [
    ShardPair(D0, D1), ShardPair(D0, P0), ShardPair(D1, P0),
    ShardPair(D0, P1), ShardPair(D1, P1), ShardPair(P0, P1)]

  function Index(s: Shard): nat {
    match s case D0 => 0 case D1 => 1 case P0 => 2 case P1 => 3
  }

  predicate Usable(present: seq<bool>, pair: ShardPair)
    requires |present| == 4
  {
    present[Index(pair.a)] && present[Index(pair.b)]
  }

  predicate TwoPresent(present: seq<bool>) {
    exists i, j :: 0 <= i < j < |present| && present[i] && present[j]
  }

  /** Succeeds exactly when two different shards are present, and then always
      names a pair there is a recovery rule for, the cheapest of those usable. */
  method ChoosePair(present: seq<bool>) returns (found: bool, out: ShardPair)
    requires |present| == 4
    ensures found <==> TwoPresent(present)
    ensures found ==> Recoverable(out) && Usable(present, out)
    ensures found ==> exists i :: 0 <= i < |ORDER| && out == ORDER[i] && forall k :: 0 <= k < i ==> !Usable(present, ORDER[k])
  {
    var i := 0;
    while i < |ORDER|
      invariant 0 <= i <= |ORDER|
      invariant forall k :: 0 <= k < i ==> !Usable(present, ORDER[k])
    {
      if present[Index(ORDER[i].a)] && present[Index(ORDER[i].b)] {
        assert Usable(present, ORDER[i]);
        AllPairsListed(present);
        return true, ORDER[i];
      }
      i := i + 1;
    }
    AllPairsListed(present);
    return false, ShardPair(D0, D0);
  }

  lemma {:induction false} AllPairsListed(present: seq<bool>)
    requires |present| == 4
    ensures TwoPresent(present) <==> exists k :: 0 <= k < |ORDER| && Usable(present, ORDER[k])
  {
    assert Usable(present, ORDER[0]) == (present[0] && present[1]);
    assert Usable(present, ORDER[1]) == (present[0] && present[2]);
    assert Usable(present, ORDER[2]) == (present[1] && present[2]);
    assert Usable(present, ORDER[3]) == (present[0] && present[3]);
    assert Usable(present, ORDER[4]) == (present[1] && present[3]);
    assert Usable(present, ORDER[5]) == (present[2] && present[3]);
  }

  /** Rebuilds both halves; a pair without a rule is refused. */
  method Reconstruct(pair: ShardPair, a: array<byte>, b: array<byte>, n: nat)
    returns (ok: bool, d0: array<byte>, d1: array<byte>)
    requires n <= a.Length && n <= b.Length
    ensures fresh(d0) && fresh(d1) && d0 != d1 && d0.Length == d1.Length == n
    ensures ok <==> Recoverable(pair)
    ensures ok ==> (d0[..], d1[..]) == Decode(pair, a[..n], b[..n])
  {
    d0 := new byte[n](_ => 0);
    d1 := new byte[n](_ => 0);
    match pair {
      case ShardPair(D0, D1) =>
        Copy(a, n, d0);
        Copy(b, n, d1);
      case ShardPair(D0, P0) =>
        Copy(a, n, d0);
        XorInto(a, b, n, d1);
      case ShardPair(D1, P0) =>
        Copy(a, n, d1);
        XorInto(a, b, n, d0);
      case ShardPair(D0, P1) =>
        Copy(a, n, d0);
        SolveParity1(a, b, n, 2, 3, d1);
      case ShardPair(D1, P1) =>
        Copy(a, n, d1);
        SolveParity1(a, b, n, 3, 2, d0);
      case ShardPair(P0, P1) =>
        SolveBoth(a, b, n, d0, d1);
      case _ =>
        return false, d0, d1;
    }
    DecodeByBytes(pair, a[..n], b[..n], d0[..], d1[..]);
    return true, d0, d1;
  }

  lemma {:induction false} DecodeByBytes(pair: ShardPair, a: seq<byte>, b: seq<byte>, d0: seq<byte>, d1: seq<byte>)
    requires Recoverable(pair) && |a| == |b| == |d0| == |d1|
    requires forall k :: 0 <= k < |a| ==> d0[k] == DecodeByte(pair, a[k], b[k]).0
    requires forall k :: 0 <= k < |a| ==> d1[k] == DecodeByte(pair, a[k], b[k]).1
    ensures (d0, d1) == Decode(pair, a, b)
  {
    var d := Decode(pair, a, b);
    assert d0 == d.0 && d1 == d.1;
  }

  method Copy(src: array<byte>, n: nat, dst: array<byte>)
    requires n <= src.Length && n == dst.Length && src != dst
    modifies dst
    ensures dst[..] == src[..n]
  {
    for i := 0 to n
      invariant dst[..i] == src[..i]
    {
      dst[i] := src[i];
    }
  }

  /** d1 = p1 + 2 . p0, then d0 = p0 + d1. */
  method SolveBoth(a: array<byte>, b: array<byte>, n: nat, d0: array<byte>, d1: array<byte>)
    requires n <= a.Length && n <= b.Length && n == d0.Length == d1.Length
    requires d0 != a && d0 != b && d1 != a && d1 != b && d0 != d1
    modifies d0, d1
    ensures forall k :: 0 <= k < n ==> d1[k] == Add(b[k], GfMul(a[k], 2)) && d0[k] == Add(a[k], d1[k])
  {
    for i := 0 to n
      invariant forall k :: 0 <= k < i ==> d1[k] == Add(b[k], GfMul(a[k], 2)) && d0[k] == Add(a[k], d1[k])
    {
      var twice := Mul(a[i], 2);
      d1[i] := Add(b[i], twice);
      d0[i] := Add(a[i], d1[i]);
    }
  }

  /** out = inv(c) . (b + k . a), the rule for the half that p1 scales by c. */
  method SolveParity1(a: array<byte>, b: array<byte>, n: nat, k: byte, c: byte, out: array<byte>)
    requires n <= a.Length && n <= b.Length && n == out.Length && a != out && b != out && c != 0
    modifies out
    ensures forall i :: 0 <= i < n ==> out[i] == GfMul(Add(b[i], GfMul(a[i], k)), Inverse(c))
  {
    var inv := Inv(c);
    for i := 0 to n
      invariant forall j :: 0 <= j < i ==> out[j] == GfMul(Add(b[j], GfMul(a[j], k)), Inverse(c))
    {
      var scaled := Mul(a[i], k);
      var t := Add(b[i], scaled);
      var solved := Mul(t, inv);
      out[i] := solved;
    }
  }
}

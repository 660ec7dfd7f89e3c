/** Rebuilding a pending stream from peers that may be gone, may have lost their
    chunk, or may answer with anything at all. */
module Recover {
  import opened Wrappers
  import opened Bytes
  import opened Erasure
  import opened Gf256
  import opened Gf2Poly
  import opened ShardFile

  type Hash = seq<byte> -> string

  /** One line of a manifest: which shard, and the hash that names it. */
  datatype ShardRef = ShardRef(index: int, chunkId: string, peer: string)

  /** What asking one peer for one chunk can end in. A transfer that breaks off
      leaves whatever had arrived in the holder file. */
  datatype Fetch = Unreachable | Missing | Broken(partial: seq<byte>) | Fetched(body: seq<byte>)

  predicate InRange(ref: ShardRef) {
    0 <= ref.index < 4
  }

  /** The four holder files, which of them the joiner may use, and the count. */
  datatype Holdings = Holdings(holders: seq<Option<seq<byte>>>, usable: seq<bool>, recovered: nat) {
    predicate Valid() {
      |holders| == |usable| == 4 && forall i :: 0 <= i < 4 && usable[i] ==> holders[i].Some?
    }

    function Offered(): (shards: seq<Option<seq<byte>>>)
      requires Valid()
      ensures |shards| == 4
    {
      seq(4, i requires 0 <= i < 4 => if usable[i] then holders[i] else None)
    }
  }

  const NOTHING: Holdings := Holdings([None, None, None, None], [false, false, false, false], 0)

  predicate Verified(ref: ShardRef, fetch: Fetch, hash: Hash) {
    InRange(ref) && fetch.Fetched? && hash(fetch.body) == ref.chunkId
  }

  function Take(held: Holdings, ref: ShardRef, fetch: Fetch, hash: Hash): (r: Holdings)
    requires held.Valid()
    ensures r.Valid()
  {
    if !InRange(ref) then held
    else match fetch
      case Unreachable => held
      case Missing => held
      case Broken(partial) => held.(holders := held.holders[ref.index := Some(partial)])
      case Fetched(body) =>
        var stored := held.(holders := held.holders[ref.index := Some(body)]);
        if hash(body) == ref.chunkId
        then stored.(usable := stored.usable[ref.index := true], recovered := stored.recovered + 1)
        else stored
  }

  /** The holdings after the first k lines of the manifest. */
  function Collect(refs: seq<ShardRef>, fetches: seq<Fetch>, k: nat, hash: Hash): (r: Holdings)
    requires |refs| == |fetches| && k <= |refs|
    ensures r.Valid()
  {
    if k == 0 then NOTHING
    else Take(Collect(refs, fetches, k - 1, hash), refs[k - 1], fetches[k - 1], hash)
  }

  predicate RebuildOk(held: Holdings, shardSize: nat)
    requires held.Valid()
  {
    held.recovered >= 2 && TwoPresent(Present(held.Offered(), shardSize))
  }

  method RebuildStream(refs: seq<ShardRef>, fetches: seq<Fetch>, shardSize: nat, streamSize: nat, hash: Hash)
    returns (ok: bool, stream: seq<byte>)
    requires |refs| == |fetches|
    ensures var held := Collect(refs, fetches, |refs|, hash);
      (ok <==> RebuildOk(held, shardSize))
      && (ok ==> exists pair :: JoinedFrom(held.Offered(), shardSize, pair, streamSize, stream))
  {
    var holders := new Option<seq<byte>>[4](_ => None);
    var usable := new bool[4](_ => false);
    var recovered := 0;
    for i := 0 to |refs|
      invariant Collect(refs, fetches, i, hash) == Holdings(holders[..], usable[..], recovered)
    {
      var ref := refs[i];
      if ref.index < 0 || ref.index >= 4 {
        continue;
      }
      match fetches[i] {
        case Unreachable =>
        case Missing =>
        case Broken(partial) =>
          holders[ref.index] := Some(partial);
        case Fetched(body) =>
          holders[ref.index] := Some(body);
          if hash(body) == ref.chunkId {
            usable[ref.index] := true;
            recovered := recovered + 1;
          }
      }
    }
    if recovered < 2 {
      return false, [];
    }
    var held := Holdings(holders[..], usable[..], recovered);
    ok, stream := JoinShards(held.Offered(), shardSize, streamSize);
  }

  // ----- soundness and liveness against arbitrary peers -----

  function ShardAt(i: int): Shard
    requires 0 <= i < 4
  {
    if i == 0 then D0 else if i == 1 then D1 else if i == 2 then P0 else P1
  }

  /** The manifest names the true shards of `stream`. */
  ghost predicate Genuine(refs: seq<ShardRef>, stream: seq<byte>, hash: Hash) {
    forall i :: 0 <= i < |refs| && InRange(refs[i]) ==> refs[i].chunkId == hash(ShardOf(ShardAt(refs[i].index), stream))
  }

  ghost predicate DistinctIndices(refs: seq<ShardRef>) {
    forall i, j :: 0 <= i < j < |refs| ==> refs[i].index != refs[j].index
  }

  /** The hash has no collision among the byte strings that ever meet it. */
  ghost predicate CollisionFree(hash: Hash, seen: set<seq<byte>>) {
    forall x, y :: x in seen && y in seen && hash(x) == hash(y) ==> x == y
  }

  ghost predicate AllSeen(refs: seq<ShardRef>, fetches: seq<Fetch>, stream: seq<byte>, seen: set<seq<byte>>) {
    (forall s: Shard :: ShardOf(s, stream) in seen)
    && forall i :: 0 <= i < |fetches| && fetches[i].Fetched? ==> fetches[i].body in seen
  }

  function One(b: bool): nat {
    if b then 1 else 0
  }

  function Count(flags: seq<bool>): nat
    requires |flags| == 4
  {
    One(flags[0]) + One(flags[1]) + One(flags[2]) + One(flags[3])
  }

  ghost predicate VerifiedFor(refs: seq<ShardRef>, fetches: seq<Fetch>, i: nat, s: int, hash: Hash)
    requires |refs| == |fetches| && i < |refs|
  {
    refs[i].index == s && Verified(refs[i], fetches[i], hash)
  }

  ghost predicate AnyVerified(refs: seq<ShardRef>, fetches: seq<Fetch>, k: nat, s: int, hash: Hash)
    requires |refs| == |fetches| && k <= |refs|
  {
    exists i :: 0 <= i < k && VerifiedFor(refs, fetches, i, s, hash)
  }

  /** After k lines: the usable holders are exactly the verified ones, hold the
      true shards, and have been counted once each. */
  ghost predicate Trustworthy(refs: seq<ShardRef>, fetches: seq<Fetch>, k: nat, stream: seq<byte>, hash: Hash)
    requires |refs| == |fetches| && k <= |refs|
  {
    var held := Collect(refs, fetches, k, hash);
    (forall s :: 0 <= s < 4 && held.usable[s] ==> held.holders[s] == Some(ShardOf(ShardAt(s), stream)))
    && (forall s :: 0 <= s < 4 ==> (held.usable[s] <==> AnyVerified(refs, fetches, k, s, hash)))
    && held.recovered == Count(held.usable)
  }

  lemma {:induction false} TakeEffect(held: Holdings, ref: ShardRef, fetch: Fetch, hash: Hash)
    requires held.Valid()
    ensures var r, hit := Take(held, ref, fetch, hash), Verified(ref, fetch, hash);
      r.usable == (if hit then held.usable[ref.index := true] else held.usable)
      && r.recovered == held.recovered + One(hit)
      && (forall s :: 0 <= s < 4 && s != ref.index ==> r.holders[s] == held.holders[s])
      && (hit ==> r.holders[ref.index] == Some(fetch.body))
  {
  }

  lemma {:induction false} CountSet(flags: seq<bool>, s: nat)
    requires |flags| == 4 && s < 4 && !flags[s]
    ensures Count(flags[s := true]) == Count(flags) + 1
  {
  }

  lemma {:induction false} CollectTrustworthy(refs: seq<ShardRef>, fetches: seq<Fetch>, k: nat,
                                              stream: seq<byte>, hash: Hash, seen: set<seq<byte>>)
    requires |refs| == |fetches| && k <= |refs|
    requires Genuine(refs, stream, hash) && DistinctIndices(refs)
    requires CollisionFree(hash, seen) && AllSeen(refs, fetches, stream, seen)
    ensures Trustworthy(refs, fetches, k, stream, hash)
  {
    hide Take, ShardOf;
    if k > 0 {
      CollectTrustworthy(refs, fetches, k - 1, stream, hash, seen);
      var before := Collect(refs, fetches, k - 1, hash);
      var ref, fetch := refs[k - 1], fetches[k - 1];
      TakeEffect(before, ref, fetch, hash);
      if InRange(ref) {
        NotYetUsable(refs, fetches, k - 1, before.usable, hash);
        CountSet(before.usable, ref.index);
      }
      VerifiedGrows(refs, fetches, k - 1, hash);
      forall s | 0 <= s < 4
        ensures Collect(refs, fetches, k, hash).usable[s] <==> AnyVerified(refs, fetches, k, s, hash)
      {
        assert VerifiedFor(refs, fetches, k - 1, s, hash) <==> ref.index == s && Verified(ref, fetch, hash);
      }
    }
  }

  lemma {:induction false} NotYetUsable(refs: seq<ShardRef>, fetches: seq<Fetch>, k: nat, usable: seq<bool>, hash: Hash)
    requires |refs| == |fetches| && k < |refs| && |usable| == 4 && DistinctIndices(refs) && InRange(refs[k])
    requires forall s :: 0 <= s < 4 ==> (usable[s] <==> AnyVerified(refs, fetches, k, s, hash))
    ensures !usable[refs[k].index]
  {
  }

  lemma {:induction false} VerifiedGrows(refs: seq<ShardRef>, fetches: seq<Fetch>, k: nat, hash: Hash)
    requires |refs| == |fetches| && k < |refs|
    ensures forall s :: AnyVerified(refs, fetches, k + 1, s, hash) <==>
      AnyVerified(refs, fetches, k, s, hash) || VerifiedFor(refs, fetches, k, s, hash)
  {
  }

  lemma {:induction false} TwoPresentIsCount(flags: seq<bool>)
    requires |flags| == 4
    ensures TwoPresent(flags) <==> Count(flags) >= 2
  {
    if Count(flags) >= 2 {
      assert (flags[0] && flags[1]) || (flags[0] && flags[2]) || (flags[0] && flags[3])
          || (flags[1] && flags[2]) || (flags[1] && flags[3]) || (flags[2] && flags[3]);
    }
  }

  /** Whatever the peers answer: rebuilding succeeds exactly when two shards
      verified, and then yields the original stream. */
  lemma {:induction false} RebuildCorrect(refs: seq<ShardRef>, fetches: seq<Fetch>, stream: seq<byte>, hash: Hash, seen: set<seq<byte>>)
    requires |refs| == |fetches|
    requires Genuine(refs, stream, hash) && DistinctIndices(refs)
    requires CollisionFree(hash, seen) && AllSeen(refs, fetches, stream, seen)
    ensures var held := Collect(refs, fetches, |refs|, hash);
      (RebuildOk(held, HalfSize(stream)) <==>
        exists i, j :: 0 <= i < j < |refs| && Verified(refs[i], fetches[i], hash) && Verified(refs[j], fetches[j], hash))
      && forall pair, out :: JoinedFrom(held.Offered(), HalfSize(stream), pair, |stream|, out) ==> out == stream
  {
    CollectTrustworthy(refs, fetches, |refs|, stream, hash, seen);
    var held := Collect(refs, fetches, |refs|, hash);
    assert Present(held.Offered(), HalfSize(stream)) == held.usable;
    TwoPresentIsCount(held.usable);
    TwoVerified(refs, fetches, held.usable, hash);
    JoinsOnlyTheStream(held.Offered(), stream);
  }

  lemma {:induction false} JoinsOnlyTheStream(offered: seq<Option<seq<byte>>>, stream: seq<byte>)
    requires |offered| == 4
    requires forall s :: 0 <= s < 4 && offered[s].Some? ==> offered[s].value == ShardOf(ShardAt(s), stream)
    ensures forall pair, out :: JoinedFrom(offered, HalfSize(stream), pair, |stream|, out) ==> out == stream
  {
    forall pair, out | JoinedFrom(offered, HalfSize(stream), pair, |stream|, out)
      ensures out == stream
    {
      assert ShardAt(Index(pair.a)) == pair.a && ShardAt(Index(pair.b)) == pair.b;
      JoinUndoesSplit(pair, stream);
    }
  }

  lemma {:induction false} TwoVerified(refs: seq<ShardRef>, fetches: seq<Fetch>, usable: seq<bool>, hash: Hash)
    requires |refs| == |fetches| && |usable| == 4 && DistinctIndices(refs)
    requires forall s :: 0 <= s < 4 ==> (usable[s] <==> AnyVerified(refs, fetches, |refs|, s, hash))
    ensures TwoPresent(usable) <==>
      exists i, j :: 0 <= i < j < |refs| && Verified(refs[i], fetches[i], hash) && Verified(refs[j], fetches[j], hash)
  {
    if TwoPresent(usable) {
      var s, t :| 0 <= s < t < 4 && usable[s] && usable[t];
      var i :| 0 <= i < |refs| && VerifiedFor(refs, fetches, i, s, hash);
      var j :| 0 <= j < |refs| && VerifiedFor(refs, fetches, j, t, hash);
      assert i < j || j < i;
    }
    if i, j :| 0 <= i < j < |refs| && Verified(refs[i], fetches[i], hash) && Verified(refs[j], fetches[j], hash) {
      var s, t := refs[i].index, refs[j].index;
      assert VerifiedFor(refs, fetches, i, s, hash) && VerifiedFor(refs, fetches, j, t, hash);
      assert usable[s] && usable[t] && s != t;
      assert s < t || t < s;
    }
  }

  /** Two honest peers are enough. */
  lemma {:induction false} HonestPairSuffices(refs: seq<ShardRef>, fetches: seq<Fetch>, stream: seq<byte>, hash: Hash,
                                              seen: set<seq<byte>>, i: nat, j: nat)
    requires |refs| == |fetches| && i < j < |refs| && InRange(refs[i]) && InRange(refs[j])
    requires Genuine(refs, stream, hash) && DistinctIndices(refs)
    requires CollisionFree(hash, seen) && AllSeen(refs, fetches, stream, seen)
    requires fetches[i] == Fetched(ShardOf(ShardAt(refs[i].index), stream))
    requires fetches[j] == Fetched(ShardOf(ShardAt(refs[j].index), stream))
    ensures RebuildOk(Collect(refs, fetches, |refs|, hash), HalfSize(stream))
  {
    RebuildCorrect(refs, fetches, stream, hash, seen);
    assert Verified(refs[i], fetches[i], hash) && Verified(refs[j], fetches[j], hash);
  }

  // ----- manifests that list an index twice -----

  ghost predicate Lists(refs: seq<ShardRef>, s: int) {
    exists k :: 0 <= k < |refs| && refs[k].index == s
  }

  ghost predicate Repeats(refs: seq<ShardRef>, s: int) {
    exists i, j :: 0 <= i < j < |refs| && refs[i].index == s && refs[j].index == s
  }

  /** Some index comes twice and another one comes too. Of a single byte, d0 is all
      that counts, so there the other one must not be d0. */
  ghost predicate Misleading(refs: seq<ShardRef>, size: nat) {
    size >= 1 && exists a, b ::
      (0 <= a < 4 && 0 <= b < 4 && a != b && Repeats(refs, a) && Lists(refs, b) && (size >= 2 || b != 0))
  }

  /** Some answers make a rebuild succeed and return something else. */
  ghost predicate CanMislead(refs: seq<ShardRef>, stream: seq<byte>, hash: Hash, seen: set<seq<byte>>) {
    exists fetches, pair, out :: Misleads(refs, fetches, stream, hash, seen, pair, out)
  }

  ghost predicate Misleads(refs: seq<ShardRef>, fetches: seq<Fetch>, stream: seq<byte>, hash: Hash, seen: set<seq<byte>>,
                           pair: ShardPair, out: seq<byte>) {
    |fetches| == |refs| && AllSeen(refs, fetches, stream, seen)
    && var held := Collect(refs, fetches, |refs|, hash);
       RebuildOk(held, HalfSize(stream)) && JoinedFrom(held.Offered(), HalfSize(stream), pair, |stream|, out) && out != stream
  }

  /** For each shard, some string of its length begins otherwise. */
  ghost predicate Rich(stream: seq<byte>, seen: set<seq<byte>>) {
    forall s: Shard :: (stream != [] ==>
      exists x :: x in seen && |x| == HalfSize(stream) && x[0] != ShardOf(s, stream)[0])
  }

  /** Given x, every shard but d0 determines y. */
  lemma {:induction false} SameSecond(s: Shard, x: byte, y: byte, y': byte)
    requires s != D0 && ShardByte(s, x, y) == ShardByte(s, x, y')
    ensures y == y'
  {
    match s
    case D1 =>
    case P0 =>
      XorCancel(x, y);
      XorCancel(x, y');
    case P1 =>
      XorCancel(GfMul(x, 2), GfMul(y, 3));
      XorCancel(GfMul(x, 2), GfMul(y', 3));
      ScaleRoundTrip(y, 3);
      ScaleRoundTrip(y', 3);
  }

  lemma {:induction false} JoinedBytes(pair: ShardPair, va: seq<byte>, vb: seq<byte>, stream: seq<byte>)
    requires Recoverable(pair) && |va| == |vb| == HalfSize(stream) && stream != []
    requires Joined(pair, va, vb, |stream|) == stream
    ensures var (d0, d1) := Decode(pair, va, vb);
      d0[0] == FirstHalf(stream)[0] && (|stream| >= 2 ==> d1[0] == SecondHalf(stream)[0])
      && ShardByte(pair.a, d0[0], d1[0]) == va[0] && ShardByte(pair.b, d0[0], d1[0]) == vb[0]
  {
    var (d0, d1) := Decode(pair, va, vb);
    var half := HalfSize(stream);
    EncodeDecode(pair, va, vb);
    assert EncodeShard(pair.a, d0, d1)[0] == va[0] && EncodeShard(pair.b, d0, d1)[0] == vb[0];
    assert stream[0] == (d0 + d1)[0] == d0[0];
    if |stream| >= 2 {
      assert stream[half] == (d0 + d1)[half] == d1[0];
    }
  }

  /** A shard that begins wrongly makes a wrong stream. */
  lemma {:induction false} BadShardShows(pair: ShardPair, va: seq<byte>, vb: seq<byte>, stream: seq<byte>)
    requires Recoverable(pair) && |va| == |vb| == HalfSize(stream) && stream != []
    requires va[0] != ShardOf(pair.a, stream)[0] || vb[0] != ShardOf(pair.b, stream)[0]
    requires |stream| >= 2 || (va == ShardOf(pair.a, stream) && pair.a != D0) || (vb == ShardOf(pair.b, stream) && pair.b != D0)
    ensures Joined(pair, va, vb, |stream|) != stream
  {
    if Joined(pair, va, vb, |stream|) == stream {
      JoinedBytes(pair, va, vb, stream);
      var x, y := FirstHalf(stream)[0], SecondHalf(stream)[0];
      var y' := Decode(pair, va, vb).1[0];
      ShardFirst(pair.a, stream);
      ShardFirst(pair.b, stream);
      if |stream| < 2 {
        if va == ShardOf(pair.a, stream) && pair.a != D0 {
          SameSecond(pair.a, x, y, y');
        } else {
          SameSecond(pair.b, x, y, y');
        }
      }
    }
  }

  lemma {:induction false} ShardFirst(s: Shard, stream: seq<byte>)
    requires stream != []
    ensures ShardOf(s, stream)[0] == ShardByte(s, FirstHalf(stream)[0], SecondHalf(stream)[0])
  {
  }

  // ----- answers that mislead -----

  /** True answers on lines i and k, a bad one on line j, and no other answer. */
  function BadAnswers(n: nat, i: nat, j: nat, k: nat, a: seq<byte>, bad: seq<byte>, b: seq<byte>): (fetches: seq<Fetch>)
    ensures |fetches| == n
  {
    seq(n, p requires 0 <= p < n => if p == i then Fetched(a) else if p == j then Fetched(bad) else if p == k then Fetched(b) else Unreachable)
  }

  lemma {:induction false} BadHoldings(refs: seq<ShardRef>, i: nat, j: nat, k: nat, a: seq<byte>, bad: seq<byte>, b: seq<byte>, hash: Hash, n: nat)
    requires i < j < |refs| && k < |refs| && n <= |refs| && InRange(refs[i]) && InRange(refs[k])
    requires refs[i].index == refs[j].index && refs[k].index != refs[i].index
    requires hash(a) == refs[i].chunkId && hash(b) == refs[k].chunkId && hash(bad) != refs[j].chunkId
    ensures var held, s, t := Collect(refs, BadAnswers(|refs|, i, j, k, a, bad, b), n, hash), refs[i].index, refs[k].index;
      held.recovered == One(n > i) + One(n > k)
      && (forall p :: 0 <= p < 4 ==> (held.usable[p] <==> (p == s && n > i) || (p == t && n > k)))
      && (n > i ==> held.holders[s] == Some(if n > j then bad else a)) && (n > k ==> held.holders[t] == Some(b))
  {
    if n > 0 {
      BadHoldings(refs, i, j, k, a, bad, b, hash, n - 1);
      var fetches := BadAnswers(|refs|, i, j, k, a, bad, b);
      assert fetches[n - 1] == if n - 1 == i then Fetched(a) else if n - 1 == j then Fetched(bad)
        else if n - 1 == k then Fetched(b) else Unreachable;
    }
  }

  /** The pair of two different shards, in the order of the rules. */
  function PairOf(s: int, t: int): (pair: ShardPair)
    requires 0 <= s < 4 && 0 <= t < 4 && s != t
    ensures Recoverable(pair)
  {
    if s < t then ShardPair(ShardAt(s), ShardAt(t)) else ShardPair(ShardAt(t), ShardAt(s))
  }

  lemma {:induction false} RepeatMisleads(refs: seq<ShardRef>, stream: seq<byte>, hash: Hash, seen: set<seq<byte>>,
                                          i: nat, j: nat, k: nat, bad: seq<byte>)
    requires i < j < |refs| && k < |refs| && InRange(refs[i]) && InRange(refs[k]) && Genuine(refs, stream, hash)
    requires refs[i].index == refs[j].index && refs[k].index != refs[i].index && stream != []
    requires |stream| >= 2 || refs[k].index != 0
    requires (forall s: Shard :: ShardOf(s, stream) in seen) && bad in seen && |bad| == HalfSize(stream)
    requires bad[0] != ShardOf(ShardAt(refs[i].index), stream)[0] && hash(bad) != refs[j].chunkId
    ensures CanMislead(refs, stream, hash, seen)
  {
    hide Decode, Joined, ShardOf, Collect;
    var s, t := refs[i].index, refs[k].index;
    var a, b := ShardOf(ShardAt(s), stream), ShardOf(ShardAt(t), stream);
    var fetches := BadAnswers(|refs|, i, j, k, a, bad, b);
    BadHoldings(refs, i, j, k, a, bad, b, hash, |refs|);
    var held := Collect(refs, fetches, |refs|, hash);
    var pair, out := BadPairMisleads(held, stream, s, t, bad);
    assert Misleads(refs, fetches, stream, hash, seen, pair, out);
  }

  lemma {:induction false} BadPairMisleads(held: Holdings, stream: seq<byte>, s: int, t: int, bad: seq<byte>)
    returns (pair: ShardPair, out: seq<byte>)
    requires held.Valid() && 0 <= s < 4 && 0 <= t < 4 && s != t && stream != [] && (|stream| >= 2 || t != 0)
    requires held.recovered == 2 && held.usable[s] && held.usable[t]
    requires held.holders[s] == Some(bad) && held.holders[t] == Some(ShardOf(ShardAt(t), stream))
    requires |bad| == HalfSize(stream) && bad[0] != ShardOf(ShardAt(s), stream)[0]
    ensures RebuildOk(held, HalfSize(stream)) && out != stream
    ensures JoinedFrom(held.Offered(), HalfSize(stream), pair, |stream|, out)
  {
    hide Decode, Joined, ShardOf;
    pair := PairOf(s, t);
    var good := ShardOf(ShardAt(t), stream);
    var va, vb := if s < t then bad else good, if s < t then good else bad;
    var present := Present(held.Offered(), HalfSize(stream));
    assert present[s] && present[t];
    BadShardShows(pair, va, vb, stream);
    out := Joined(pair, va, vb, |stream|);
  }

  // ----- and nothing else does -----

  lemma {:induction false} UsableIsListed(refs: seq<ShardRef>, fetches: seq<Fetch>, k: nat, hash: Hash, s: int)
    requires |refs| == |fetches| && k <= |refs| && 0 <= s < 4 && Collect(refs, fetches, k, hash).usable[s]
    ensures exists i :: 0 <= i < k && refs[i].index == s
  {
    if k > 0 && refs[k - 1].index != s {
      UsableIsListed(refs, fetches, k - 1, hash, s);
    }
  }

  /** An index listed only once is as good as its hash. */
  lemma {:induction false} OnceIsTrue(refs: seq<ShardRef>, fetches: seq<Fetch>, k: nat, stream: seq<byte>, hash: Hash, seen: set<seq<byte>>, s: int)
    requires |refs| == |fetches| && k <= |refs| && 0 <= s < 4 && !Repeats(refs, s)
    requires Genuine(refs, stream, hash) && CollisionFree(hash, seen) && AllSeen(refs, fetches, stream, seen)
    ensures var held := Collect(refs, fetches, k, hash); held.usable[s] ==> held.holders[s] == Some(ShardOf(ShardAt(s), stream))
  {
    hide ShardOf;
    if k > 0 {
      OnceIsTrue(refs, fetches, k - 1, stream, hash, seen, s);
      if refs[k - 1].index == s && Collect(refs, fetches, k - 1, hash).usable[s] {
        UsableIsListed(refs, fetches, k - 1, hash, s);
      }
    }
  }

  lemma {:induction false} OnlyRepeatsMislead(refs: seq<ShardRef>, fetches: seq<Fetch>, stream: seq<byte>, hash: Hash, seen: set<seq<byte>>,
                                              pair: ShardPair, out: seq<byte>)
    requires Genuine(refs, stream, hash) && CollisionFree(hash, seen) && Misleads(refs, fetches, stream, hash, seen, pair, out)
    ensures Misleading(refs, |stream|)
  {
    hide Decode, ShardOf;
    var held, s, t := Collect(refs, fetches, |refs|, hash), Index(pair.a), Index(pair.b);
    assert held.usable[s] && held.usable[t] && s < t;
    UsableIsListed(refs, fetches, |refs|, hash, s);
    UsableIsListed(refs, fetches, |refs|, hash, t);
    assert Lists(refs, s) && Lists(refs, t);
    if !Repeats(refs, s) {
      OnceIsTrue(refs, fetches, |refs|, stream, hash, seen, s);
      if s == 0 && |stream| == 1 {
        OneByte(pair, held, stream, out);
      } else if !Repeats(refs, t) {
        OnceIsTrue(refs, fetches, |refs|, stream, hash, seen, t);
        JoinUndoesSplit(pair, stream);
      }
    }
  }

  /** Of one byte, a true d0 is the whole stream. */
  lemma {:induction false} OneByte(pair: ShardPair, held: Holdings, stream: seq<byte>, out: seq<byte>)
    requires held.Valid() && |stream| == 1 && Index(pair.a) == 0
    requires held.usable[0] ==> held.holders[0] == Some(ShardOf(D0, stream))
    requires JoinedFrom(held.Offered(), HalfSize(stream), pair, |stream|, out)
    ensures out == stream
  {
    var va, vb := held.Offered()[0].value, held.Offered()[Index(pair.b)].value;
    EncodeData(FirstHalf(stream), SecondHalf(stream));
    EncodeDecode(pair, va, vb);
    var d := Decode(pair, va, vb);
    EncodeData(d.0, d.1);
    assert va == stream;
  }

  /** Given true shards' names, answers that mislead exist exactly for manifests of
      one shape: an index listed twice, and beside it another one that counts. */
  lemma {:induction false} RepeatedIndexMisleadsIff(refs: seq<ShardRef>, stream: seq<byte>, hash: Hash, seen: set<seq<byte>>)
    requires Genuine(refs, stream, hash)
    requires CollisionFree(hash, seen) && Rich(stream, seen) && forall s: Shard :: ShardOf(s, stream) in seen
    ensures CanMislead(refs, stream, hash, seen) <==> Misleading(refs, |stream|)
  {
    if fetches, pair, out :| Misleads(refs, fetches, stream, hash, seen, pair, out) {
      OnlyRepeatsMislead(refs, fetches, stream, hash, seen, pair, out);
    }
    if Misleading(refs, |stream|) {
      ShapeMisleads(refs, stream, hash, seen);
    }
  }

  lemma {:induction false} ShapeMisleads(refs: seq<ShardRef>, stream: seq<byte>, hash: Hash, seen: set<seq<byte>>)
    requires Genuine(refs, stream, hash)
    requires CollisionFree(hash, seen) && Rich(stream, seen) && forall s: Shard :: ShardOf(s, stream) in seen
    requires Misleading(refs, |stream|)
    ensures CanMislead(refs, stream, hash, seen)
  {
    hide ShardOf, CanMislead;
    var a, b :| 0 <= a < 4 && 0 <= b < 4 && a != b && Repeats(refs, a) && Lists(refs, b) && (|stream| >= 2 || b != 0);
    var i, j :| 0 <= i < j < |refs| && refs[i].index == a && refs[j].index == a;
    var k :| 0 <= k < |refs| && refs[k].index == b;
    var bad :| bad in seen && |bad| == HalfSize(stream) && bad[0] != ShardOf(ShardAt(a), stream)[0];
    assert InRange(refs[j]);
    RepeatMisleads(refs, stream, hash, seen, i, j, k, bad);
  }
}

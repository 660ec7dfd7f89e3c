/** File-level erasure coding: a stream is halved into d0 and d1, the second
    half zero-padded when the length is odd, and everything is done slice by
    slice through a few open files. */
module ShardFile {
  import opened Bytes
  import opened Erasure
  import opened Wrappers

  const SLICE: nat := 64 * 1024

  // ----- files -----

  /** A write at `at`; a gap beyond the old end of the file reads as zeros. */
  function Overwrite(file: seq<byte>, at: nat, data: seq<byte>): seq<byte> {
    if data == [] then file
    else
      var padded := if |file| < at then file + Zeros(at - |file|) else file;
      padded[..at] + data + padded[Min(at + |data|, |padded|)..]
  }

  class InFile {
    const bytes: seq<byte>
    var pos: nat

    constructor (bytes: seq<byte>, pos: nat)
      ensures this.bytes == bytes && this.pos == pos
    {
      this.bytes := bytes;
      this.pos := pos;
    }

    /** Reads up to `want` bytes; fewer only at the end of the file. */
    method Read(dst: array<byte>, want: nat) returns (got: nat)
      requires want <= dst.Length && pos <= |bytes|
      modifies this, dst
      ensures got == Min(want, |bytes| - old(pos)) && pos == old(pos) + got
      ensures dst[..] == bytes[old(pos)..pos] + old(dst[got..])
    {
      got := Min(want, |bytes| - pos);
      forall i | 0 <= i < got {
        dst[i] := bytes[pos + i];
      }
      pos := pos + got;
    }
  }

  class OutFile {
    var bytes: seq<byte>
    var pos: nat

    constructor ()
      ensures bytes == [] && pos == 0
    {
      bytes, pos := [], 0;
    }

    method Seek(at: nat)
      modifies this
      ensures bytes == old(bytes) && pos == at
    {
      pos := at;
    }

    method Write(src: array<byte>, n: nat)
      requires n <= src.Length
      modifies this
      ensures bytes == Overwrite(old(bytes), old(pos), src[..n]) && pos == old(pos) + n
      ensures old(pos) == |old(bytes)| ==> bytes == old(bytes) + src[..n]
    {
      bytes := Overwrite(bytes, pos, src[..n]);
      pos := pos + n;
    }
  }

  // ----- what splitting and joining mean -----

  function HalfSize(stream: seq<byte>): nat {
    (|stream| + 1) / 2
  }

  function FirstHalf(stream: seq<byte>): (d: seq<byte>)
    ensures |d| == HalfSize(stream)
  {
    stream[..HalfSize(stream)]
  }

  function SecondHalf(stream: seq<byte>): (d: seq<byte>)
    ensures |d| == HalfSize(stream)
  {
    Resize(stream[HalfSize(stream)..], HalfSize(stream))
  }

  function ShardOf(s: Shard, stream: seq<byte>): (r: seq<byte>)
    ensures |r| == HalfSize(stream)
  {
    EncodeShard(s, FirstHalf(stream), SecondHalf(stream))
  }

  function Joined(pair: ShardPair, a: seq<byte>, b: seq<byte>, size: nat): (r: seq<byte>)
    requires Recoverable(pair) && |a| == |b|
    ensures |r| == size
  {
    var (d0, d1) := Decode(pair, a, b);
    Resize(d0 + d1, size)
  }

  /** Whatever the length of the stream and whichever two shards survive,
      joining them undoes splitting. */
  lemma {:induction false} JoinUndoesSplit(pair: ShardPair, stream: seq<byte>)
    requires Recoverable(pair)
    ensures Joined(pair, ShardOf(pair.a, stream), ShardOf(pair.b, stream), |stream|) == stream
  {
    DecodeEncode(pair, FirstHalf(stream), SecondHalf(stream));
    assert (FirstHalf(stream) + SecondHalf(stream))[..|stream|] == stream;
  }

  // ----- splitting -----

  /** Reads exactly `want` bytes, zero-filling whatever lies past the end. */
  method ReadPadded(file: InFile, dst: array<byte>, want: nat)
    requires want <= dst.Length && file.pos <= |file.bytes|
    modifies file, dst
    ensures file.pos == Min(old(file.pos) + want, |file.bytes|)
    ensures dst[..want] == Resize(file.bytes[old(file.pos)..file.pos], want)
  {
    var got := file.Read(dst, want);
    ghost var read := file.bytes[old(file.pos)..file.pos];
    assert dst[..got] == read;
    for i := got to want
      invariant file.pos == old(file.pos) + got
      invariant dst[..i] == Resize(read, i)
    {
      dst[i] := 0;
    }
  }

  /** The two slices read at offset `done` are slices of the two halves. */
  lemma {:induction false} SlicesOfHalves(stream: seq<byte>, done: nat, n: nat)
    requires done + n <= HalfSize(stream)
    ensures Resize(stream[done..done + n], n) == FirstHalf(stream)[done..done + n]
    ensures var half, size := HalfSize(stream), |stream|;
      Resize(stream[Min(half + done, size)..Min(half + done + n, size)], n) == SecondHalf(stream)[done..done + n]
  {
    var half, size := HalfSize(stream), |stream|;
    assert stream[done..done + n] == FirstHalf(stream)[done..done + n];
    var tail := stream[half..];
    TailSlice(stream, half, Min(done, |tail|), Min(done + n, |tail|));
    ResizeSlice(tail, half, done, n);
  }

  lemma {:induction false} TailSlice(stream: seq<byte>, half: nat, lo: nat, hi: nat)
    requires half <= |stream| && lo <= hi <= |stream| - half
    ensures stream[half..][lo..hi] == stream[half + lo..half + hi]
  {
  }

  lemma {:induction false} ResizeSlice(tail: seq<byte>, size: nat, done: nat, n: nat)
    requires |tail| <= size && done + n <= size
    ensures Resize(tail, size)[done..done + n] == Resize(tail[Min(done, |tail|)..Min(done + n, |tail|)], n)
  {
    hide Resize;
    var part := tail[Min(done, |tail|)..Min(done + n, |tail|)];
    var a, b := Resize(tail, size)[done..done + n], Resize(part, n);
    forall i | 0 <= i < n ensures a[i] == b[i] {
      ResizeAt(tail, size, done + i);
      ResizeAt(part, n, i);
      assert a[i] == Resize(tail, size)[done + i];
    }
  }

  lemma {:induction false} ResizeAt(file: seq<byte>, size: nat, k: nat)
    requires k < size
    ensures Resize(file, size)[k] == if k < |file| then file[k] else 0
  {
  }

  lemma {:induction false} EncodeSlice(s: Shard, x: seq<byte>, y: seq<byte>, done: nat, n: nat)
    requires |x| == |y| && done + n <= |x|
    ensures EncodeShard(s, x[done..done + n], y[done..done + n]) == EncodeShard(s, x, y)[done..done + n]
  {
  }

  /** Reads the next slice of both halves and derives both parities from it. */
  method FillBuffers(a: InFile, b: InFile, n: nat, buf0: array<byte>, buf1: array<byte>, buf2: array<byte>, buf3: array<byte>,
                     ghost stream: seq<byte>, ghost done: nat)
    requires a != b && a.bytes == b.bytes == stream && done + n <= HalfSize(stream)
    requires a.pos == done && b.pos == Min(HalfSize(stream) + done, |stream|)
    requires n <= buf0.Length && n <= buf1.Length && n <= buf2.Length && n <= buf3.Length
    requires buf0 != buf1 && buf0 != buf2 && buf1 != buf2 && buf0 != buf3 && buf1 != buf3 && buf2 != buf3
    modifies a, b, buf0, buf1, buf2, buf3
    ensures a.pos == done + n && b.pos == Min(HalfSize(stream) + done + n, |stream|)
    ensures buf0[..n] == ShardOf(D0, stream)[done..done + n] && buf1[..n] == ShardOf(D1, stream)[done..done + n]
    ensures buf2[..n] == ShardOf(P0, stream)[done..done + n] && buf3[..n] == ShardOf(P1, stream)[done..done + n]
  {
    ghost var x, y := FirstHalf(stream), SecondHalf(stream);
    SlicesOfHalves(stream, done, n);
    ReadPadded(a, buf0, n);
    ReadPadded(b, buf1, n);
    assert buf0[..n] == x[done..done + n] && buf1[..n] == y[done..done + n];
    MakeParity0(buf0, buf1, n, buf2);
    MakeParity1(buf0, buf1, n, buf3);
    EncodeSlice(P0, x, y, done, n);
    EncodeSlice(P1, x, y, done, n);
    EncodeData(x, y);
  }

  lemma {:induction false} EncodeData(x: seq<byte>, y: seq<byte>)
    requires |x| == |y|
    ensures EncodeShard(D0, x, y) == x && EncodeShard(D1, x, y) == y
  {
  }

  method AppendSlice(out: OutFile, src: array<byte>, n: nat, ghost whole: seq<byte>, ghost done: nat)
    requires n <= src.Length && done + n <= |whole|
    requires out.pos == done && out.bytes == whole[..done] && src[..n] == whole[done..done + n]
    modifies out
    ensures out.pos == done + n && out.bytes == whole[..done + n]
  {
    out.Write(src, n);
    assert whole[..done] + whole[done..done + n] == whole[..done + n];
  }

  /** The four shard files hold the first `done` bytes of the four shards. */
  ghost predicate Written(stream: seq<byte>, done: nat, out0: OutFile, out1: OutFile, out2: OutFile, out3: OutFile)
    requires done <= HalfSize(stream)
    reads out0, out1, out2, out3
  {
    out0.pos == out1.pos == out2.pos == out3.pos == done
    && out0.bytes == ShardOf(D0, stream)[..done] && out1.bytes == ShardOf(D1, stream)[..done]
    && out2.bytes == ShardOf(P0, stream)[..done] && out3.bytes == ShardOf(P1, stream)[..done]
  }

  method AppendSlices(out0: OutFile, out1: OutFile, out2: OutFile, out3: OutFile, n: nat,
                      buf0: array<byte>, buf1: array<byte>, buf2: array<byte>, buf3: array<byte>,
                      ghost stream: seq<byte>, ghost done: nat)
    requires out0 != out1 && out0 != out2 && out1 != out2 && out0 != out3 && out1 != out3 && out2 != out3
    requires n <= buf0.Length && n <= buf1.Length && n <= buf2.Length && n <= buf3.Length
    requires done + n <= HalfSize(stream) && Written(stream, done, out0, out1, out2, out3)
    requires buf0[..n] == ShardOf(D0, stream)[done..done + n] && buf1[..n] == ShardOf(D1, stream)[done..done + n]
    requires buf2[..n] == ShardOf(P0, stream)[done..done + n] && buf3[..n] == ShardOf(P1, stream)[done..done + n]
    modifies out0, out1, out2, out3
    ensures Written(stream, done + n, out0, out1, out2, out3)
  {
    AppendSlice(out0, buf0, n, ShardOf(D0, stream), done);
    AppendSlice(out1, buf1, n, ShardOf(D1, stream), done);
    AppendSlice(out2, buf2, n, ShardOf(P0, stream), done);
    AppendSlice(out3, buf3, n, ShardOf(P1, stream), done);
  }

  method SplitStream(stream: seq<byte>) returns (d0: seq<byte>, d1: seq<byte>, p0: seq<byte>, p1: seq<byte>, shardSize: nat)
    ensures shardSize == HalfSize(stream)
    ensures d0 == ShardOf(D0, stream) && d1 == ShardOf(D1, stream)
    ensures p0 == ShardOf(P0, stream) && p1 == ShardOf(P1, stream)
  {
    hide ShardOf, Written, FirstHalf, SecondHalf;
    var half := (|stream| + 1) / 2;
    var a := new InFile(stream, 0);
    var b := new InFile(stream, half);
    var out0 := new OutFile();
    var out1 := new OutFile();
    var out2 := new OutFile();
    var out3 := new OutFile();
    var buf0, buf1 := new byte[SLICE], new byte[SLICE];
    var buf2, buf3 := new byte[SLICE], new byte[SLICE];

    var done := 0;
    NoneWritten(stream, out0, out1, out2, out3);
    while done < half
      invariant 0 <= done <= half
      invariant a.pos == done && b.pos == Min(half + done, |stream|)
      invariant Written(stream, done, out0, out1, out2, out3)
    {
      var n := Min(SLICE, half - done);
      FillBuffers(a, b, n, buf0, buf1, buf2, buf3, stream, done);
      AppendSlices(out0, out1, out2, out3, n, buf0, buf1, buf2, buf3, stream, done);
      done := done + n;
    }
    AllWritten(stream, out0, out1, out2, out3);
    return out0.bytes, out1.bytes, out2.bytes, out3.bytes, half;
  }

  lemma {:induction false} NoneWritten(stream: seq<byte>, out0: OutFile, out1: OutFile, out2: OutFile, out3: OutFile)
    requires out0.bytes == out1.bytes == out2.bytes == out3.bytes == []
    requires out0.pos == out1.pos == out2.pos == out3.pos == 0
    ensures Written(stream, 0, out0, out1, out2, out3)
  {
  }

  lemma {:induction false} AllWritten(stream: seq<byte>, out0: OutFile, out1: OutFile, out2: OutFile, out3: OutFile)
    requires Written(stream, HalfSize(stream), out0, out1, out2, out3)
    ensures out0.bytes == ShardOf(D0, stream) && out1.bytes == ShardOf(D1, stream)
    ensures out2.bytes == ShardOf(P0, stream) && out3.bytes == ShardOf(P1, stream)
  {
    hide ShardOf;
  }

  // ----- joining -----

  /** The output after `done` bytes of each half: the first half so far, a hole,
      then the second half so far, one shard length further along. */
  function PartlyJoined(d0: seq<byte>, d1: seq<byte>, done: nat): seq<byte>
    requires |d0| == |d1| && done <= |d0|
  {
    if done == 0 then [] else d0[..done] + Zeros(|d0| - done) + d1[..done]
  }

  lemma {:induction false} WriteAtEnd(file: seq<byte>, data: seq<byte>)
    ensures Overwrite(file, |file|, data) == file + data
  {
    assert file[..|file|] == file && file[|file|..] == [];
    if data != [] {
      assert Overwrite(file, |file|, data) == file + data + [];
    }
  }

  lemma {:induction false} WritePastEnd(file: seq<byte>, at: nat, data: seq<byte>)
    requires |file| <= at && data != []
    ensures Overwrite(file, at, data) == file + Zeros(at - |file|) + data
  {
    var padded := if |file| < at then file + Zeros(at - |file|) else file;
    assert padded == file + Zeros(at - |file|) && padded[..at] == padded && padded[at..] == [];
  }

  lemma {:induction false} WriteInside(head: seq<byte>, mid: seq<byte>, tail: seq<byte>, data: seq<byte>)
    requires |data| == |mid|
    ensures Overwrite(head + mid + tail, |head|, data) == head + data + tail
  {
    var file := head + mid + tail;
    assert file[..|head|] == head && file[|head| + |mid|..] == tail;
    if data == [] {
      assert mid == data;
    }
  }

  lemma {:induction false} ZerosJoin(a: nat, b: nat)
    ensures Zeros(a) + Zeros(b) == Zeros(a + b)
  {
  }

  /** The file between the two writes of a slice. */
  function HalfWritten(d0: seq<byte>, d1: seq<byte>, done: nat, n: nat): seq<byte>
    requires |d0| == |d1| && done + n <= |d0|
  {
    if done == 0 then d0[..n] else d0[..done + n] + Zeros(|d0| - done - n) + d1[..done]
  }

  lemma {:induction false} FirstWrite(d0: seq<byte>, d1: seq<byte>, done: nat, n: nat)
    requires |d0| == |d1| && done + n <= |d0| && n > 0
    ensures Overwrite(PartlyJoined(d0, d1, done), done, d0[done..done + n]) == HalfWritten(d0, d1, done, n)
  {
    hide Overwrite, Zeros;
    var data, rest := d0[done..done + n], |d0| - done - n;
    assert d0[..done + n] == d0[..done] + data;
    if done == 0 {
      WriteAtEnd([], data);
    } else {
      ZerosJoin(n, rest);
      assert PartlyJoined(d0, d1, done) == d0[..done] + Zeros(n) + (Zeros(rest) + d1[..done]);
      WriteInside(d0[..done], Zeros(n), Zeros(rest) + d1[..done], data);
      assert d0[..done] + data + (Zeros(rest) + d1[..done]) == HalfWritten(d0, d1, done, n);
    }
  }

  lemma {:induction false} SecondWrite(d0: seq<byte>, d1: seq<byte>, done: nat, n: nat)
    requires |d0| == |d1| && done + n <= |d0| && n > 0
    ensures Overwrite(HalfWritten(d0, d1, done, n), |d0| + done, d1[done..done + n]) == PartlyJoined(d0, d1, done + n)
  {
    hide Overwrite, Zeros;
    var data := d1[done..done + n];
    assert d1[..done + n] == d1[..done] + data;
    if done == 0 {
      WritePastEnd(d0[..n], |d0|, data);
    } else {
      WriteAtEnd(HalfWritten(d0, d1, done, n), data);
      assert d0[..done + n] + Zeros(|d0| - done - n) + d1[..done] + data == d0[..done + n] + Zeros(|d0| - done - n) + (d1[..done] + data);
    }
  }

  lemma {:induction false} TwoWrites(d0: seq<byte>, d1: seq<byte>, done: nat, n: nat)
    requires |d0| == |d1| && done + n <= |d0| && n > 0
    ensures Overwrite(Overwrite(PartlyJoined(d0, d1, done), done, d0[done..done + n]), |d0| + done, d1[done..done + n])
            == PartlyJoined(d0, d1, done + n)
  {
    hide Overwrite, PartlyJoined, HalfWritten;
    FirstWrite(d0, d1, done, n);
    SecondWrite(d0, d1, done, n);
  }

  /** A shard counts as present when its file exists at the expected size. */
  function Present(shards: seq<Option<seq<byte>>>, shardSize: nat): (p: seq<bool>)
    ensures |p| == |shards|
  {
    seq(|shards|, i requires 0 <= i < |shards| => shards[i].Some? && |shards[i].value| == shardSize)
  }

  /** What joining returns from a usable pair; any pair will do. */
  ghost predicate JoinedFrom(shards: seq<Option<seq<byte>>>, shardSize: nat, pair: ShardPair, streamSize: nat, stream: seq<byte>)
    requires |shards| == 4
  {
    Recoverable(pair) && Usable(Present(shards, shardSize), pair)
    && stream == Joined(pair, shards[Index(pair.a)].value, shards[Index(pair.b)].value, streamSize)
  }

  method JoinShards(shards: seq<Option<seq<byte>>>, shardSize: nat, streamSize: nat) returns (ok: bool, stream: seq<byte>)
    requires |shards| == 4
    ensures ok <==> TwoPresent(Present(shards, shardSize))
    ensures ok ==> exists pair: ShardPair :: JoinedFrom(shards, shardSize, pair, streamSize, stream)
  {
    var present := Present(shards, shardSize);
    var found, pair := ChoosePair(present);
    if !found {
      return false, [];
    }
    var a, b := shards[Index(pair.a)].value, shards[Index(pair.b)].value;
    stream := JoinPair(pair, a, b);
    stream := Resize(stream, streamSize);
    assert JoinedFrom(shards, shardSize, pair, streamSize, stream);
    return true, stream;
  }

  method JoinPair(pair: ShardPair, a: seq<byte>, b: seq<byte>) returns (stream: seq<byte>)
    requires Recoverable(pair) && |a| == |b|
    ensures stream == Decode(pair, a, b).0 + Decode(pair, a, b).1
  {
    var shardSize := |a|;
    var inA := new InFile(a, 0);
    var inB := new InFile(b, 0);
    var out := new OutFile();
    var bufA, bufB := new byte[SLICE], new byte[SLICE];

    ghost var d := Decode(pair, a, b);
    var done := 0;
    while done < shardSize
      invariant 0 <= done <= shardSize
      invariant inA.pos == inB.pos == done
      invariant out.bytes == PartlyJoined(d.0, d.1, done)
    {
      var n := Min(SLICE, shardSize - done);
      JoinSlice(pair, inA, inB, bufA, bufB, out, n, done, shardSize);
      done := done + n;
    }
    assert out.bytes == d.0 + d.1;
    return out.bytes;
  }

  method JoinSlice(pair: ShardPair, inA: InFile, inB: InFile, bufA: array<byte>, bufB: array<byte>, out: OutFile,
                   n: nat, done: nat, shardSize: nat)
    requires inA != inB && bufA != bufB && n <= bufA.Length && n <= bufB.Length
    requires Recoverable(pair) && |inA.bytes| == |inB.bytes| == shardSize
    requires 0 < n && done + n <= shardSize && inA.pos == inB.pos == done
    requires var d := Decode(pair, inA.bytes, inB.bytes); out.bytes == PartlyJoined(d.0, d.1, done)
    modifies inA, inB, bufA, bufB, out
    ensures inA.pos == inB.pos == done + n
    ensures var d := Decode(pair, inA.bytes, inB.bytes); out.bytes == PartlyJoined(d.0, d.1, done + n)
  {
    hide Decode, PartlyJoined, Recoverable;
    ghost var d := Decode(pair, inA.bytes, inB.bytes);
    ReadSlice(inA, bufA, n);
    ReadSlice(inB, bufB, n);
    DecodeSlice(pair, inA.bytes, inB.bytes, done, n);
    var rule, d0, d1 := Reconstruct(pair, bufA, bufB, n);
    assert rule;
    WriteSlices(out, d0, d1, n, done, shardSize, d.0, d.1);
  }

  /** A present shard never ends before its recorded length. */
  method ReadSlice(file: InFile, buf: array<byte>, n: nat)
    requires n <= buf.Length && file.pos + n <= |file.bytes|
    modifies file, buf
    ensures file.pos == old(file.pos) + n && buf[..n] == file.bytes[old(file.pos)..old(file.pos) + n]
  {
    var got := file.Read(buf, n);
    assert got == n;
  }

  /** One file filled from two moving offsets. */
  method WriteSlices(out: OutFile, d0: array<byte>, d1: array<byte>, n: nat, done: nat, shardSize: nat,
                     ghost whole0: seq<byte>, ghost whole1: seq<byte>)
    requires 0 < n == d0.Length == d1.Length && done + n <= shardSize == |whole0| == |whole1|
    requires d0[..] == whole0[done..done + n] && d1[..] == whole1[done..done + n]
    requires out.bytes == PartlyJoined(whole0, whole1, done)
    modifies out
    ensures out.bytes == PartlyJoined(whole0, whole1, done + n)
  {
    hide Overwrite, PartlyJoined;
    assert d0[..n] == d0[..] && d1[..n] == d1[..];
    out.Seek(done);
    out.Write(d0, n);
    out.Seek(shardSize + done);
    out.Write(d1, n);
    TwoWrites(whole0, whole1, done, n);
  }

  lemma {:induction false} DecodeSlice(pair: ShardPair, a: seq<byte>, b: seq<byte>, done: nat, n: nat)
    requires Recoverable(pair) && |a| == |b| && done + n <= |a|
    ensures Decode(pair, a[done..done + n], b[done..done + n]).0 == Decode(pair, a, b).0[done..done + n]
    ensures Decode(pair, a[done..done + n], b[done..done + n]).1 == Decode(pair, a, b).1[done..done + n]
  {
  }
}

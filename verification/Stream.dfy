/** The sealed container: a fixed header, then blocks `iv | length | cipher | tag`,
    each authenticated against the whole header and its own index.

    AES-GCM and PBKDF2 are parameters. What is assumed of the cipher is stated
    where it is used: `Correct` for what was sealed, `Unforgeable` for what an
    attacker may present. */
module Stream {
  import opened Bytes
  import opened Wrappers

  const MAGIC: seq<byte> := [0x50, 0x43, 0x53, 0x31]
  const VERSION: byte := 1
  const SALT_LEN: nat := 16
  const HEADER_LEN: nat := 37
  const KEY_LEN: nat := 32
  const IV_LEN: nat := 12
  const TAG_LEN: nat := 16
  const MAX_BLOCK: nat := 64 * 1024 * 1024
  const BLOCK_SIZE: nat := 1024 * 1024
  const KDF_ITERATIONS: nat := 100000
  const U32: nat := 0x1_0000_0000
  const U64: nat := 0x1_0000_0000_0000_0000

  // ----- little-endian integers -----

  function Pow256(n: nat): (p: nat)
    ensures p > 0
  {
    if n == 0 then 1 else 256 * Pow256(n - 1)
  }

  function PutLe(v: nat, n: nat): (r: seq<byte>)
    ensures |r| == n
  {
    if n == 0 then [] else [v % 256] + PutLe(v / 256, n - 1)
  }

  function GetLe(p: seq<byte>): (v: nat) {
    if p == [] then 0 else p[0] + 256 * GetLe(p[1..])
  }

  lemma {:induction false} GetPut(v: nat, n: nat)
    requires v < Pow256(n)
    ensures GetLe(PutLe(v, n)) == v
  {
    if n > 0 {
      GetPut(v / 256, n - 1);
      assert PutLe(v, n)[1..] == PutLe(v / 256, n - 1);
    }
  }

  lemma {:induction false} PutGet(p: seq<byte>)
    ensures PutLe(GetLe(p), |p|) == p && GetLe(p) < Pow256(|p|)
  {
    if p != [] {
      PutGet(p[1..]);
      assert p == [p[0]] + p[1..];
    }
  }

  method PutUint(out: seq<byte>, value: nat, n: nat) returns (r: seq<byte>)
    ensures r == out + PutLe(value, n)
  {
    r := out;
    var v := value;
    for i := 0 to n
      invariant r + PutLe(v, n - i) == out + PutLe(value, n)
    {
      ghost var before := r;
      r := r + [v % 256];
      assert before + PutLe(v, n - i) == r + PutLe(v / 256, n - i - 1);
      v := v / 256;
    }
  }

  method GetUint(p: seq<byte>) returns (v: nat)
    ensures v == GetLe(p)
  {
    v := 0;
    var scale: nat := 1;
    for i := 0 to |p|
      invariant GetLe(p) == v + scale * GetLe(p[i..])
    {
      GetTail(v, scale, p[i..]);
      assert p[i..][1..] == p[i + 1..];
      v := v + p[i] * scale;
      scale := 256 * scale;
    }
  }

  lemma {:induction false} GetTail(v: nat, scale: nat, p: seq<byte>)
    requires p != []
    ensures v + scale * GetLe(p) == v + p[0] * scale + 256 * scale * GetLe(p[1..])
  {
    var rest := GetLe(p[1..]);
    assert scale * (p[0] + 256 * rest) == p[0] * scale + 256 * scale * rest;
  }

  // ----- header -----

  datatype Header = Header(iterations: nat, salt: seq<byte>, blockSize: nat, plainSize: nat) {
    predicate Plausible() {
      0 < iterations < U32 && |salt| == SALT_LEN && 0 < blockSize <= MAX_BLOCK && plainSize < U64
    }
  }

  datatype Error = TruncatedHeader | BadMagic | BadVersion | BadBlockSize | BadIterations
    | NoSalt | BadKey | SealFailed | TruncatedBlock | OversizedBlock | NotAuthentic | WrongSize

  datatype Result<+T> = Ok(value: T) | Err(error: Error)

  function HeaderBytes(h: Header): (raw: seq<byte>)
  {
    MAGIC + [VERSION] + PutLe(h.iterations, 4) + h.salt + PutLe(h.blockSize, 4) + PutLe(h.plainSize, 8)
  }

  function ParseHeader(raw: seq<byte>): (r: Result<Header>) {
    if |raw| != HEADER_LEN then Err(TruncatedHeader)
    else if raw[..4] != MAGIC then Err(BadMagic)
    else if raw[4] != VERSION then Err(BadVersion)
    else
      var h := Header(GetLe(raw[5..9]), raw[9..25], GetLe(raw[25..29]), GetLe(raw[29..37]));
      if h.blockSize == 0 || h.blockSize > MAX_BLOCK then Err(BadBlockSize)
      else if h.iterations == 0 then Err(BadIterations)
      else Ok(h)
  }

  method BuildHeader(h: Header) returns (raw: seq<byte>)
    ensures raw == HeaderBytes(h)
  {
    raw := MAGIC + [VERSION];
    raw := PutUint(raw, h.iterations, 4);
    raw := raw + h.salt;
    raw := PutUint(raw, h.blockSize, 4);
    raw := PutUint(raw, h.plainSize, 8);
  }

  lemma {:induction false} Widths()
    ensures Pow256(4) == U32 && Pow256(8) == U64
  {
  }

  /** Parsing inverts printing on every plausible header. */
  lemma {:induction false} ParseBuild(h: Header)
    requires h.Plausible()
    ensures |HeaderBytes(h)| == HEADER_LEN && ParseHeader(HeaderBytes(h)) == Ok(h)
  {
    Widths();
    GetPut(h.iterations, 4);
    GetPut(h.blockSize, 4);
    GetPut(h.plainSize, 8);
    FieldSlices(MAGIC, VERSION, PutLe(h.iterations, 4), h.salt, PutLe(h.blockSize, 4), PutLe(h.plainSize, 8));
  }

  lemma {:induction false} FieldSlices(m: seq<byte>, v: byte, it: seq<byte>, salt: seq<byte>, bs: seq<byte>, ps: seq<byte>)
    requires |m| == 4 && |it| == 4 && |salt| == 16 && |bs| == 4 && |ps| == 8
    ensures var raw := m + [v] + it + salt + bs + ps;
      |raw| == 37 && raw[..4] == m && raw[4] == v && raw[5..9] == it
      && raw[9..25] == salt && raw[25..29] == bs && raw[29..37] == ps
  {
  }

  /** A header that parses is the printed form of what it parses to. */
  lemma {:induction false} BuildParse(raw: seq<byte>)
    requires ParseHeader(raw).Ok?
    ensures ParseHeader(raw).value.Plausible() && HeaderBytes(ParseHeader(raw).value) == raw
  {
    Widths();
    PutGet(raw[5..9]);
    PutGet(raw[25..29]);
    PutGet(raw[29..37]);
    assert raw == raw[..4] + [raw[4]] + raw[5..9] + raw[9..25] + raw[25..29] + raw[29..37];
  }

  // ----- the cipher and the key derivation, as parameters -----

  type Key = seq<byte>

  datatype Sealed = Sealed(cipher: seq<byte>, tag: seq<byte>)

  datatype Aead = Aead(seal: (Key, seq<byte>, seq<byte>, seq<byte>) -> Sealed,
                       open: (Key, seq<byte>, seq<byte>, Sealed) -> Option<seq<byte>>)

  type Kdf = (string, seq<byte>, nat) -> Key

  /** One call of the sealing primitive. */
  datatype Query = Query(key: Key, iv: seq<byte>, aad: seq<byte>, plain: seq<byte>)

  /** The wrappers refuse a key or an iv of the wrong size. */
  function GcmSeal(aead: Aead, q: Query): (r: Option<Sealed>) {
    if |q.key| != KEY_LEN || |q.iv| != IV_LEN then None else Some(aead.seal(q.key, q.iv, q.aad, q.plain))
  }

  function GcmOpen(aead: Aead, key: Key, iv: seq<byte>, aad: seq<byte>, sealed: Sealed): (r: Option<seq<byte>>) {
    if |key| != KEY_LEN || |iv| != IV_LEN || |sealed.tag| != TAG_LEN then None else aead.open(key, iv, aad, sealed)
  }

  /** Sealing keeps the length, adds a 16-byte tag, and opens again. */
  ghost predicate Correct(aead: Aead, q: Query) {
    var s := aead.seal(q.key, q.iv, q.aad, q.plain);
    |s.cipher| == |q.plain| && |s.tag| == TAG_LEN && aead.open(q.key, q.iv, q.aad, s) == Some(q.plain)
  }

  /** Ideal integrity: nothing opens but what was sealed, as it was sealed. */
  ghost predicate Unforgeable(aead: Aead, log: set<Query>) {
    forall key, iv, aad, sealed :: aead.open(key, iv, aad, sealed).Some? ==>
      var q := Query(key, iv, aad, aead.open(key, iv, aad, sealed).value);
      q in log && sealed == aead.seal(key, iv, aad, q.plain)
  }

  function BlockAad(raw: seq<byte>, index: nat): seq<byte> {
    raw + PutLe(index, 8)
  }

  /** A block's associated data names its header and its index, and nothing else. */
  lemma {:induction false} AadInjective(raw: seq<byte>, i: nat, raw': seq<byte>, j: nat)
    requires |raw| == |raw'| == HEADER_LEN && i < U64 && j < U64
    requires BlockAad(raw, i) == BlockAad(raw', j)
    ensures raw == raw' && i == j
  {
    Widths();
    assert BlockAad(raw, i)[..37] == raw && BlockAad(raw', j)[..37] == raw';
    assert BlockAad(raw, i)[37..] == PutLe(i, 8) && BlockAad(raw', j)[37..] == PutLe(j, 8);
    GetPut(i, 8);
    GetPut(j, 8);
  }

  // ----- sealing -----

  /** Where block i of a plaintext begins: every block but the last is full. */
  function Start(plain: seq<byte>, i: nat): (s: nat)
    ensures s <= |plain|
  {
    Min(i * BLOCK_SIZE, |plain|)
  }

  function Chunk(plain: seq<byte>, i: nat): seq<byte> {
    plain[Start(plain, i)..Start(plain, i + 1)]
  }

  function ChunkQuery(key: Key, raw: seq<byte>, ivs: nat -> seq<byte>, plain: seq<byte>, i: nat): Query {
    Query(key, ivs(i), BlockAad(raw, i), Chunk(plain, i))
  }

  function BlockBytes(iv: seq<byte>, s: Sealed): seq<byte> {
    iv + PutLe(|s.cipher|, 4) + s.cipher + s.tag
  }

  function ChunkBytes(aead: Aead, q: Query): seq<byte> {
    BlockBytes(q.iv, aead.seal(q.key, q.iv, q.aad, q.plain))
  }

  /** The first n sealed blocks. */
  function SealedBlocks(aead: Aead, key: Key, raw: seq<byte>, ivs: nat -> seq<byte>, plain: seq<byte>, n: nat): seq<byte> {
    if n == 0 then []
    else SealedBlocks(aead, key, raw, ivs, plain, n - 1) + ChunkBytes(aead, ChunkQuery(key, raw, ivs, plain, n - 1))
  }

  /** How many blocks a plaintext takes. */
  function Blocks(plain: seq<byte>): nat {
    (|plain| + BLOCK_SIZE - 1) / BLOCK_SIZE
  }

  /** The same count in 64-bit arithmetic, where the sum may wrap around. */
  function BlockCount(length: nat, size: nat): nat
    requires size > 0
  {
    if length == 0 then 0 else (length + size - 1) % U64 / size
  }

  function SealHeader(plain: seq<byte>, salt: seq<byte>): Header {
    Header(KDF_ITERATIONS, salt, BLOCK_SIZE, |plain|)
  }

  /** What sealing `plain` under `key` writes. */
  function SealedFile(aead: Aead, key: Key, salt: seq<byte>, ivs: nat -> seq<byte>, plain: seq<byte>): seq<byte> {
    var raw := HeaderBytes(SealHeader(plain, salt));
    raw + SealedBlocks(aead, key, raw, ivs, plain, Blocks(plain))
  }

  lemma {:induction false} NextChunk(plain: seq<byte>, done: nat, index: nat)
    requires done < |plain| && done == Start(plain, index)
    ensures var want := Min(BLOCK_SIZE, |plain| - done);
      want > 0 && Chunk(plain, index) == plain[done..done + want]
      && done + want == Start(plain, index + 1)
      && index + 1 <= Blocks(plain)
  {
  }

  method SealBlock(aead: Aead, key: Key, iv: seq<byte>, raw: seq<byte>, index: nat, block: seq<byte>)
    returns (r: Option<seq<byte>>)
    ensures var q := Query(key, iv, BlockAad(raw, index), block);
      r == if |key| != KEY_LEN || |iv| != IV_LEN then None
           else Some(ChunkBytes(aead, q))
  {
    var aad := PutUint(raw, index, 8);
    var sealed := GcmSeal(aead, Query(key, iv, aad, block));
    if sealed == None {
      return None;
    }
    var length := PutUint([], |sealed.value.cipher|, 4);
    assert length == PutLe(|sealed.value.cipher|, 4);
    return Some(iv + length + sealed.value.cipher + sealed.value.tag);
  }

  /** Seals block after block; the same pass feeds the plaintext to the tagger. */
  method SealAll(aead: Aead, key: Key, raw: seq<byte>, ivs: nat -> seq<byte>, plain: seq<byte>, size: nat)
    returns (body: Option<seq<byte>>, tagged: seq<byte>)
    requires size == BLOCK_SIZE && |key| == KEY_LEN
    ensures body == None <==> exists i :: 0 <= i < Blocks(plain) && |ivs(i)| != IV_LEN
    ensures body.Some? ==> tagged == plain && body.value == SealedBlocks(aead, key, raw, ivs, plain, Blocks(plain))
  {
    hide ChunkBytes, Chunk, BlockAad;
    var out: seq<byte> := [];
    tagged := [];
    var done, index := 0, 0;
    while done < |plain|
      invariant done == Start(plain, index)
      invariant index <= Blocks(plain)
      invariant tagged == plain[..done]
      invariant forall i :: 0 <= i < index ==> |ivs(i)| == IV_LEN
      invariant out == SealedBlocks(aead, key, raw, ivs, plain, index)
      decreases |plain| - done
    {
      NextChunk(plain, done, index);
      var want := Min(size, |plain| - done);
      var block := plain[done..done + want];
      tagged := tagged + block;
      var iv := ivs(index);
      var sealed := SealBlock(aead, key, iv, raw, index, block);
      if sealed == None {
        return None, tagged;
      }
      out := out + sealed.value;
      done := done + want;
      index := index + 1;
    }
    assert tagged == plain;
    return Some(out), tagged;
  }

  /** The salt and the ivs come from the random source, which fails by returning
      fewer bytes than asked for. */
  method SealFile(plain: seq<byte>, passphrase: string, salt: seq<byte>, ivs: nat -> seq<byte>, aead: Aead, kdf: Kdf,
                  hmac: seq<byte> -> string)
    returns (r: Result<seq<byte>>, dedupTag: string)
    ensures var key := kdf(passphrase, salt, KDF_ITERATIONS);
      var n := Blocks(plain);
      if |salt| != SALT_LEN then r == Err(NoSalt)
      else if |key| != KEY_LEN then r == Err(BadKey)
      else if exists i :: 0 <= i < n && |ivs(i)| != IV_LEN then r == Err(SealFailed)
      else r == Ok(SealedFile(aead, key, salt, ivs, plain)) && dedupTag == hmac(plain)
  {
    dedupTag := "";
    var header := SealHeader(plain, salt);
    if |header.salt| != SALT_LEN {
      return Err(NoSalt), dedupTag;
    }
    var key := kdf(passphrase, header.salt, header.iterations);
    if |key| != KEY_LEN {
      return Err(BadKey), dedupTag;
    }
    var raw := BuildHeader(header);
    var body, tagged := SealAll(aead, key, raw, ivs, plain, header.blockSize);
    if body == None {
      return Err(SealFailed), dedupTag;
    }
    dedupTag := hmac(tagged);
    return Ok(raw + body.value), dedupTag;
  }

  // ----- opening -----

  /** The next block of `body`, if one is all there and no longer than allowed. */
  function CutBlock(body: seq<byte>, size: nat): (r: Result<(seq<byte>, Sealed, seq<byte>)>) {
    if |body| < IV_LEN + 4 then Err(TruncatedBlock)
    else
      var n := GetLe(body[IV_LEN..IV_LEN + 4]);
      if n > size then Err(OversizedBlock)
      else if |body| < IV_LEN + 4 + n + TAG_LEN then Err(TruncatedBlock)
      else Ok((body[..IV_LEN], Sealed(body[16..16 + n], body[16 + n..16 + n + TAG_LEN]), body[16 + n + TAG_LEN..]))
  }

  /** Blocks index, index + 1, ..., count - 1 opened in turn. */
  function OpenBlocks(aead: Aead, key: Key, raw: seq<byte>, size: nat, body: seq<byte>, index: nat, count: nat): (r: Result<seq<byte>>)
    decreases count - index
  {
    if index >= count then Ok([])
    else match CutBlock(body, size)
      case Err(e) => Err(e)
      case Ok((iv, sealed, rest)) =>
        match GcmOpen(aead, key, iv, BlockAad(raw, index), sealed)
        case None => Err(NotAuthentic)
        case Some(plain) =>
          match OpenBlocks(aead, key, raw, size, rest, index + 1, count)
          case Err(e) => Err(e)
          case Ok(tail) => Ok(plain + tail)
  }

  function Opened(aead: Aead, kdf: Kdf, passphrase: string, stream: seq<byte>): (r: Result<seq<byte>>) {
    if |stream| < HEADER_LEN then Err(TruncatedHeader)
    else
      var raw := stream[..HEADER_LEN];
      match ParseHeader(raw)
      case Err(e) => Err(e)
      case Ok(h) =>
        var key := kdf(passphrase, h.salt, h.iterations);
        if |key| != KEY_LEN then Err(BadKey)
        else match OpenBlocks(aead, key, raw, h.blockSize, stream[HEADER_LEN..], 0, BlockCount(h.plainSize, h.blockSize))
          case Err(e) => Err(e)
          case Ok(plain) => if |plain| == h.plainSize then Ok(plain) else Err(WrongSize)
  }

  method ReadBlock(stream: seq<byte>, pos: nat, size: nat) returns (r: Result<(seq<byte>, Sealed)>, next: nat)
    requires pos <= |stream|
    ensures next <= |stream|
    ensures match CutBlock(stream[pos..], size)
      case Err(e) => r == Err(e)
      case Ok((iv, sealed, rest)) => r == Ok((iv, sealed)) && stream[next..] == rest
  {
    next := pos;
    if |stream| - pos < IV_LEN + 4 {
      return Err(TruncatedBlock), next;
    }
    var iv := stream[pos..pos + IV_LEN];
    var lengthLe := stream[pos + IV_LEN..pos + IV_LEN + 4];
    assert stream[pos..][IV_LEN..IV_LEN + 4] == lengthLe;
    var n := GetUint(lengthLe);
    if n > size {
      return Err(OversizedBlock), next;
    }
    if |stream| - pos < IV_LEN + 4 + n + TAG_LEN {
      return Err(TruncatedBlock), next;
    }
    next := pos + 16 + n + TAG_LEN;
    var sealed := Sealed(stream[pos + 16..pos + 16 + n], stream[pos + 16 + n..next]);
    SliceOfTail(stream, pos, 0, 12);
    SliceOfTail(stream, pos, 16, 16 + n);
    SliceOfTail(stream, pos, 16 + n, 16 + n + TAG_LEN);
    assert stream[pos..][16 + n + TAG_LEN..] == stream[next..];
    return Ok((iv, sealed)), next;
  }

  lemma {:induction false} SliceOfTail(stream: seq<byte>, pos: nat, lo: nat, hi: nat)
    requires lo <= hi && pos + hi <= |stream|
    ensures stream[pos..][lo..hi] == stream[pos + lo..pos + hi]
  {
  }

  /** Opens the blocks one after the other, advancing through the stream. */
  method OpenAll(aead: Aead, key: Key, raw: seq<byte>, size: nat, stream: seq<byte>, blocks: nat) returns (r: Result<seq<byte>>)
    requires |stream| >= HEADER_LEN
    ensures r == OpenBlocks(aead, key, raw, size, stream[HEADER_LEN..], 0, blocks)
  {
    var pos, index := HEADER_LEN, 0;
    var out: seq<byte> := [];
    ghost var target := OpenBlocks(aead, key, raw, size, stream[HEADER_LEN..], 0, blocks);
    PrependNothing(target);
    while index < blocks
      invariant HEADER_LEN <= pos <= |stream| && index <= blocks
      invariant target == Prepend(out, OpenBlocks(aead, key, raw, size, stream[pos..], index, blocks))
    {
      var block, next := ReadBlock(stream, pos, size);
      if block.Err? {
        return Err(block.error);
      }
      var (iv, sealed) := block.value;
      var aad := PutUint(raw, index, 8);
      var plain := GcmOpen(aead, key, iv, aad, sealed);
      if plain == None {
        return Err(NotAuthentic);
      }
      PrependTwice(out, plain.value, OpenBlocks(aead, key, raw, size, stream[next..], index + 1, blocks));
      out := out + plain.value;
      pos := next;
      index := index + 1;
    }
    assert out + [] == out;
    return Ok(out);
  }

  /** The header is one this program can go on with. */
  predicate Begins(kdf: Kdf, passphrase: string, stream: seq<byte>) {
    |stream| >= HEADER_LEN && ParseHeader(stream[..HEADER_LEN]).Ok?
    && var h := ParseHeader(stream[..HEADER_LEN]).value; |kdf(passphrase, h.salt, h.iterations)| == KEY_LEN
  }

  /** `existing` is what the output path held before, `left` what it holds after.
      The path is untouched by a bad header; once output has begun, a stream that
      fails never leaves a half-decrypted file. */
  method OpenFile(stream: seq<byte>, passphrase: string, aead: Aead, kdf: Kdf, existing: Option<seq<byte>>)
    returns (r: Result<seq<byte>>, left: Option<seq<byte>>)
    ensures r == Opened(aead, kdf, passphrase, stream)
    ensures !Begins(kdf, passphrase, stream) ==> r.Err? && left == existing
    ensures Begins(kdf, passphrase, stream) ==> left == if r.Ok? then Some(r.value) else None
  {
    if |stream| < HEADER_LEN {
      return Err(TruncatedHeader), existing;
    }
    var raw := stream[..HEADER_LEN];
    var parsed := ParseHeader(raw);
    if parsed.Err? {
      return Err(parsed.error), existing;
    }
    var h := parsed.value;
    var key := kdf(passphrase, h.salt, h.iterations);
    if |key| != KEY_LEN {
      return Err(BadKey), existing;
    }
    var blocks := BlockCount(h.plainSize, h.blockSize);
    var out := OpenAll(aead, key, raw, h.blockSize, stream, blocks);
    if out.Err? {
      return out, None;
    }
    if |out.value| != h.plainSize {
      return Err(WrongSize), None;
    }
    return out, Some(out.value);
  }

  function Prepend(out: seq<byte>, rest: Result<seq<byte>>): Result<seq<byte>> {
    match rest case Err(e) => Err(e) case Ok(tail) => Ok(out + tail)
  }

  lemma {:induction false} PrependNothing(rest: Result<seq<byte>>)
    ensures Prepend([], rest) == rest
  {
    if rest.Ok? {
      assert [] + rest.value == rest.value;
    }
  }

  lemma {:induction false} PrependTwice(a: seq<byte>, b: seq<byte>, rest: Result<seq<byte>>)
    ensures Prepend(a, Prepend(b, rest)) == Prepend(a + b, rest)
  {
    if rest.Ok? {
      assert a + (b + rest.value) == a + b + rest.value;
    }
  }

  /** One turn of the opener, forwards and backwards. */
  lemma {:induction false} OpenStep(aead: Aead, key: Key, raw: seq<byte>, size: nat, body: seq<byte>, index: nat, count: nat,
                                    iv: seq<byte>, sealed: Sealed, rest: seq<byte>, plain: seq<byte>, tail: seq<byte>)
    requires index < count && CutBlock(body, size) == Ok((iv, sealed, rest))
    requires GcmOpen(aead, key, iv, BlockAad(raw, index), sealed) == Some(plain)
    requires OpenBlocks(aead, key, raw, size, rest, index + 1, count) == Ok(tail)
    ensures OpenBlocks(aead, key, raw, size, body, index, count) == Ok(plain + tail)
  {
  }

  lemma {:induction false} OpenUnstep(aead: Aead, key: Key, raw: seq<byte>, size: nat, body: seq<byte>, index: nat, count: nat)
    returns (iv: seq<byte>, sealed: Sealed, rest: seq<byte>, plain: seq<byte>, tail: seq<byte>)
    requires index < count && OpenBlocks(aead, key, raw, size, body, index, count).Ok?
    ensures GcmOpen(aead, key, iv, BlockAad(raw, index), sealed) == Some(plain)
    ensures OpenBlocks(aead, key, raw, size, rest, index + 1, count) == Ok(tail)
    ensures OpenBlocks(aead, key, raw, size, body, index, count) == Ok(plain + tail)
  {
    var cut := CutBlock(body, size).value;
    iv, sealed, rest := cut.0, cut.1, cut.2;
    plain := GcmOpen(aead, key, iv, BlockAad(raw, index), sealed).value;
    tail := OpenBlocks(aead, key, raw, size, rest, index + 1, count).value;
  }

  // ----- opening inverts sealing -----

  /** Blocks k, ..., n - 1, read from the front as the opener does. */
  function SealedFrom(aead: Aead, key: Key, raw: seq<byte>, ivs: nat -> seq<byte>, plain: seq<byte>, k: nat, n: nat): seq<byte>
    decreases n - k
  {
    if k >= n then []
    else ChunkBytes(aead, ChunkQuery(key, raw, ivs, plain, k)) + SealedFrom(aead, key, raw, ivs, plain, k + 1, n)
  }

  lemma {:induction false} PrefixAndRest(aead: Aead, key: Key, raw: seq<byte>, ivs: nat -> seq<byte>, plain: seq<byte>, k: nat, n: nat)
    requires k <= n
    ensures SealedBlocks(aead, key, raw, ivs, plain, n)
         == SealedBlocks(aead, key, raw, ivs, plain, k) + SealedFrom(aead, key, raw, ivs, plain, k, n)
    decreases n - k
  {
    hide ChunkBytes, ChunkQuery;
    if k < n {
      PrefixAndRest(aead, key, raw, ivs, plain, k + 1, n);
    }
  }

  lemma {:induction false} CutBlockBytes(iv: seq<byte>, s: Sealed, rest: seq<byte>, size: nat)
    requires |iv| == IV_LEN && |s.tag| == TAG_LEN && |s.cipher| <= size < U32
    ensures CutBlock(BlockBytes(iv, s) + rest, size) == Ok((iv, s, rest))
  {
    var body, n := BlockBytes(iv, s) + rest, |s.cipher|;
    Widths();
    GetPut(n, 4);
    assert body[..IV_LEN] == iv && body[IV_LEN..IV_LEN + 4] == PutLe(n, 4);
    assert body[16..16 + n] == s.cipher && body[16 + n..16 + n + TAG_LEN] == s.tag;
    assert body[16 + n + TAG_LEN..] == rest;
  }

  ghost predicate Sealable(aead: Aead, key: Key, raw: seq<byte>, ivs: nat -> seq<byte>, plain: seq<byte>) {
    |key| == KEY_LEN && forall i :: 0 <= i < Blocks(plain) ==> |ivs(i)| == IV_LEN && Correct(aead, ChunkQuery(key, raw, ivs, plain, i))
  }

  lemma {:induction false} OpenSealedFrom(aead: Aead, key: Key, raw: seq<byte>, ivs: nat -> seq<byte>, plain: seq<byte>,
                                          trailing: seq<byte>, k: nat)
    requires Sealable(aead, key, raw, ivs, plain) && k <= Blocks(plain)
    ensures OpenBlocks(aead, key, raw, BLOCK_SIZE, SealedFrom(aead, key, raw, ivs, plain, k, Blocks(plain)) + trailing, k, Blocks(plain))
            == Ok(plain[Start(plain, k)..])
    decreases Blocks(plain) - k
  {
    hide CutBlock, GcmOpen, OpenBlocks, BlockAad, Start, Chunk, GetLe;
    var n := Blocks(plain);
    if k < n {
      var q := ChunkQuery(key, raw, ivs, plain, k);
      var s := aead.seal(q.key, q.iv, q.aad, q.plain);
      var rest := SealedFrom(aead, key, raw, ivs, plain, k + 1, n) + trailing;
      SealedChunkOpens(aead, q);
      ChunksJoin(plain, k, n);
      CutBlockBytes(q.iv, s, rest, BLOCK_SIZE);
      assert SealedFrom(aead, key, raw, ivs, plain, k, n) + trailing == BlockBytes(q.iv, s) + rest;
      OpenSealedFrom(aead, key, raw, ivs, plain, trailing, k + 1);
      OpenStep(aead, key, raw, BLOCK_SIZE, BlockBytes(q.iv, s) + rest, k, n, q.iv, s, rest, q.plain, plain[Start(plain, k + 1)..]);
    } else {
      NothingLeft(aead, key, raw, trailing, plain);
    }
  }

  lemma {:induction false} SealedChunkOpens(aead: Aead, q: Query)
    requires Correct(aead, q) && |q.key| == KEY_LEN && |q.iv| == IV_LEN
    ensures var s := aead.seal(q.key, q.iv, q.aad, q.plain);
      |s.cipher| == |q.plain| && |s.tag| == TAG_LEN && GcmOpen(aead, q.key, q.iv, q.aad, s) == Some(q.plain)
  {
  }

  lemma {:induction false} NothingLeft(aead: Aead, key: Key, raw: seq<byte>, trailing: seq<byte>, plain: seq<byte>)
    ensures OpenBlocks(aead, key, raw, BLOCK_SIZE, [] + trailing, Blocks(plain), Blocks(plain)) == Ok(plain[Start(plain, Blocks(plain))..])
  {
    assert Start(plain, Blocks(plain)) == |plain|;
    assert plain[|plain|..] == [];
  }

  /** Blocks i to j - 1 of a plaintext. */
  function Span(plain: seq<byte>, i: nat, j: nat): seq<byte>
    requires i <= j
  {
    plain[Start(plain, i)..Start(plain, j)]
  }

  lemma {:induction false} ChunksJoin(plain: seq<byte>, k: nat, n: nat)
    requires k < n
    ensures |Chunk(plain, k)| <= BLOCK_SIZE
    ensures Chunk(plain, k) + Span(plain, k + 1, n) == Span(plain, k, n)
    ensures Chunk(plain, k) + plain[Start(plain, k + 1)..] == plain[Start(plain, k)..]
  {
  }

  /** Opening what was sealed with the same passphrase gives the plaintext back,
      whatever its length and whatever bytes follow the last block. */
  lemma {:induction false} OpenSealed(aead: Aead, kdf: Kdf, passphrase: string, salt: seq<byte>, ivs: nat -> seq<byte>,
                                      plain: seq<byte>, trailing: seq<byte>)
    requires |salt| == SALT_LEN && |plain| + BLOCK_SIZE <= U64
    requires Sealable(aead, kdf(passphrase, salt, KDF_ITERATIONS), HeaderBytes(SealHeader(plain, salt)), ivs, plain)
    ensures Opened(aead, kdf, passphrase, SealedFile(aead, kdf(passphrase, salt, KDF_ITERATIONS), salt, ivs, plain) + trailing) == Ok(plain)
  {
    var h := SealHeader(plain, salt);
    var raw, key := HeaderBytes(h), kdf(passphrase, salt, KDF_ITERATIONS);
    var stream := SealedFile(aead, key, salt, ivs, plain) + trailing;
    ParseBuild(h);
    SealedFileParts(aead, key, salt, ivs, plain, trailing);
    CountMatches(plain);
    OpenSealedFrom(aead, key, raw, ivs, plain, trailing, 0);
    assert plain[Start(plain, 0)..] == plain;
    assert OpenBlocks(aead, key, raw, BLOCK_SIZE, stream[HEADER_LEN..], 0, BlockCount(|plain|, BLOCK_SIZE)) == Ok(plain);
  }

  /** The sealing loop emits exactly as many blocks as the opener will ask for,
      unless the 64-bit sum wraps around. */
  lemma {:induction false} CountMatches(plain: seq<byte>)
    requires |plain| < U64
    ensures BlockCount(|plain|, BLOCK_SIZE) == if |plain| + BLOCK_SIZE <= U64 then Blocks(plain) else 0
  {
  }

  lemma {:induction false} SealedFileParts(aead: Aead, key: Key, salt: seq<byte>, ivs: nat -> seq<byte>, plain: seq<byte>, trailing: seq<byte>)
    requires |salt| == SALT_LEN
    ensures var raw, stream := HeaderBytes(SealHeader(plain, salt)), SealedFile(aead, key, salt, ivs, plain) + trailing;
      |stream| >= HEADER_LEN && stream[..HEADER_LEN] == raw
      && stream[HEADER_LEN..] == SealedFrom(aead, key, raw, ivs, plain, 0, Blocks(plain)) + trailing
  {
    hide SealedFrom, HeaderBytes;
    var raw := HeaderBytes(SealHeader(plain, salt));
    PrefixAndRest(aead, key, raw, ivs, plain, 0, Blocks(plain));
    HeaderWidth(SealHeader(plain, salt));
    var body := SealedFrom(aead, key, raw, ivs, plain, 0, Blocks(plain));
    assert SealedFile(aead, key, salt, ivs, plain) == raw + body;
    assert (raw + body + trailing)[HEADER_LEN..] == body + trailing;
  }

  lemma {:induction false} HeaderWidth(h: Header)
    requires |h.salt| == SALT_LEN
    ensures |HeaderBytes(h)| == HEADER_LEN
  {
    Widths();
  }

  /** The block count wraps only for plaintexts within one block of 2^64 bytes,
      and then the final size check refuses the stream. */
  lemma {:induction false} WrappedCountRefused(aead: Aead, kdf: Kdf, passphrase: string, salt: seq<byte>, ivs: nat -> seq<byte>,
                                               plain: seq<byte>, trailing: seq<byte>)
    requires |salt| == SALT_LEN && |plain| < U64 < |plain| + BLOCK_SIZE
    requires |kdf(passphrase, salt, KDF_ITERATIONS)| == KEY_LEN
    ensures Opened(aead, kdf, passphrase, SealedFile(aead, kdf(passphrase, salt, KDF_ITERATIONS), salt, ivs, plain) + trailing) == Err(WrongSize)
  {
    ParseBuild(SealHeader(plain, salt));
    SealedFileParts(aead, kdf(passphrase, salt, KDF_ITERATIONS), salt, ivs, plain, trailing);
    CountMatches(plain);
  }

  // ----- what is accepted is genuine -----

  /** One run of the sealer. */
  datatype Run = Run(key: Key, salt: seq<byte>, ivs: nat -> seq<byte>, plain: seq<byte>) {
    function Raw(): seq<byte> {
      HeaderBytes(SealHeader(plain, salt))
    }

    ghost predicate Made(q: Query, i: nat) {
      i < Blocks(plain) && q == ChunkQuery(key, Raw(), ivs, plain, i)
    }
  }

  /** Everything sealed so far was sealed by these runs, each with its own salt. */
  ghost predicate History(runs: seq<Run>, log: set<Query>) {
    (forall k :: 0 <= k < |runs| ==> |runs[k].salt| == SALT_LEN && |runs[k].plain| < U64)
    && (forall j, k :: 0 <= j < k < |runs| ==> runs[j].salt != runs[k].salt)
    && (forall q :: q in log ==> exists k: nat, i: nat :: k < |runs| && runs[k].Made(q, i))
  }

  lemma {:induction false} RunHeader(r: Run)
    requires |r.salt| == SALT_LEN && |r.plain| < U64
    ensures |r.Raw()| == HEADER_LEN && ParseHeader(r.Raw()) == Ok(SealHeader(r.plain, r.salt))
  {
    ParseBuild(SealHeader(r.plain, r.salt));
  }

  /** A block that opens under header `raw` at `index` is that very block of the
      one run that has this header. */
  lemma {:induction false} OpenedBlock(aead: Aead, key: Key, raw: seq<byte>, iv: seq<byte>, sealed: Sealed, index: nat,
                                       runs: seq<Run>, log: set<Query>) returns (k: nat)
    requires Unforgeable(aead, log) && History(runs, log) && |raw| == HEADER_LEN && index < U64
    requires GcmOpen(aead, key, iv, BlockAad(raw, index), sealed).Some?
    ensures k < |runs| && runs[k].key == key && runs[k].Raw() == raw
    ensures GcmOpen(aead, key, iv, BlockAad(raw, index), sealed).value == Chunk(runs[k].plain, index)
  {
    var plain := aead.open(key, iv, BlockAad(raw, index), sealed).value;
    var q := Query(key, iv, BlockAad(raw, index), plain);
    assert q in log;
    var m: nat, i: nat :| m < |runs| && runs[m].Made(q, i);
    k := m;
    MadeAt(runs[k], q, i, raw, index);
  }

  lemma {:induction false} MadeAt(r: Run, q: Query, i: nat, raw: seq<byte>, index: nat)
    requires |r.salt| == SALT_LEN && |r.plain| < U64 && r.Made(q, i)
    requires |raw| == HEADER_LEN && index < U64 && q.aad == BlockAad(raw, index)
    ensures r.key == q.key && r.Raw() == raw && q.plain == Chunk(r.plain, index)
  {
    RunHeader(r);
    BlocksBelow(r.plain);
    AadInjective(raw, index, r.Raw(), i);
  }

  lemma {:induction false} BlocksBelow(plain: seq<byte>)
    requires |plain| < U64
    ensures Blocks(plain) < U64
  {
  }

  lemma {:induction false} OneRunPerHeader(runs: seq<Run>, log: set<Query>, j: nat, k: nat)
    requires History(runs, log) && j < |runs| && k < |runs| && runs[j].Raw() == runs[k].Raw()
    ensures j == k
  {
    RunHeader(runs[j]);
    RunHeader(runs[k]);
  }

  /** Run k is the one that wrote header `raw`. */
  ghost predicate Wrote(runs: seq<Run>, log: set<Query>, k: nat, raw: seq<byte>, plain: seq<byte>) {
    k < |runs| && History(runs, log) && raw == runs[k].Raw() && plain == runs[k].plain
  }

  lemma {:induction false} OpenedBlockOf(aead: Aead, key: Key, raw: seq<byte>, iv: seq<byte>, sealed: Sealed, index: nat,
                                         runs: seq<Run>, log: set<Query>, k: nat, plain: seq<byte>)
    requires Unforgeable(aead, log) && Wrote(runs, log, k, raw, plain) && index < U64
    requires GcmOpen(aead, key, iv, BlockAad(raw, index), sealed).Some?
    ensures GcmOpen(aead, key, iv, BlockAad(raw, index), sealed) == Some(Chunk(plain, index))
  {
    RunHeader(runs[k]);
    var j := OpenedBlock(aead, key, raw, iv, sealed, index, runs, log);
    OneRunPerHeader(runs, log, j, k);
  }

  /** Blocks that open in turn are consecutive blocks of that run's plaintext. */
  lemma {:induction false} OpenedBlocks(aead: Aead, key: Key, raw: seq<byte>, size: nat, body: seq<byte>, index: nat, count: nat,
                                        runs: seq<Run>, log: set<Query>, k: nat, plain: seq<byte>)
    requires Unforgeable(aead, log) && Wrote(runs, log, k, raw, plain) && index <= count < U64
    requires OpenBlocks(aead, key, raw, size, body, index, count).Ok?
    ensures OpenBlocks(aead, key, raw, size, body, index, count) == Ok(Span(plain, index, count))
    decreases count - index
  {
    hide CutBlock, GcmOpen, BlockAad, Start, Chunk, History, Unforgeable, HeaderBytes;
    if index < count {
      var iv, sealed, rest, block, tail := OpenUnstep(aead, key, raw, size, body, index, count);
      OpenedBlockOf(aead, key, raw, iv, sealed, index, runs, log, k, plain);
      OpenedBlocks(aead, key, raw, size, rest, index + 1, count, runs, log, k, plain);
      ChunksJoin(plain, index, count);
    } else {
      EmptySpan(plain, index);
    }
  }

  lemma {:induction false} EmptySpan(plain: seq<byte>, i: nat)
    ensures Span(plain, i, i) == []
  {
  }

  /** Whatever bytes are presented: if the header declares a non-empty plaintext
      and opening succeeds, the output is the whole plaintext of one run, sealed
      under that header and key. Blocks cannot be reordered, duplicated, dropped
      or taken from another file, even where the 64-bit block count wraps. */
  lemma {:induction false} AcceptedIsGenuine(aead: Aead, kdf: Kdf, passphrase: string, stream: seq<byte>, runs: seq<Run>, log: set<Query>)
    requires Unforgeable(aead, log) && History(runs, log)
    requires |stream| >= HEADER_LEN && ParseHeader(stream[..HEADER_LEN]).Ok? && ParseHeader(stream[..HEADER_LEN]).value.plainSize > 0
    requires Opened(aead, kdf, passphrase, stream).Ok?
    ensures var h := ParseHeader(stream[..HEADER_LEN]).value;
      exists k :: 0 <= k < |runs| && runs[k].key == kdf(passphrase, h.salt, h.iterations)
        && runs[k].Raw() == stream[..HEADER_LEN] && runs[k].plain == Opened(aead, kdf, passphrase, stream).value
  {
    var raw, body := stream[..HEADER_LEN], stream[HEADER_LEN..];
    var h := ParseHeader(raw).value;
    var key := kdf(passphrase, h.salt, h.iterations);
    var count := BlockCount(h.plainSize, h.blockSize);
    var out := OpenBlocks(aead, key, raw, h.blockSize, body, 0, count).value;
    assert |out| == h.plainSize > 0;
    CountBelow(h.plainSize, h.blockSize);
    var iv, sealed, rest, block, tail := OpenUnstep(aead, key, raw, h.blockSize, body, 0, count);
    var k := OpenedBlock(aead, key, raw, iv, sealed, 0, runs, log);
    RunHeader(runs[k]);
    OpenedBlocks(aead, key, raw, h.blockSize, body, 0, count, runs, log, k, runs[k].plain);
    assert |out| == |runs[k].plain|;
    assert runs[k].plain == out;
  }

  lemma {:induction false} CountBelow(length: nat, size: nat)
    requires size > 0
    ensures BlockCount(length, size) < U64
  {
  }

  /** An empty declared plaintext has no blocks, so nothing is checked at all:
      any key and any trailing bytes are accepted. */
  lemma {:induction false} EmptyAuthenticatesNothing(aead: Aead, kdf: Kdf, passphrase: string, h: Header, trailing: seq<byte>)
    requires h.Plausible() && h.plainSize == 0 && |kdf(passphrase, h.salt, h.iterations)| == KEY_LEN
    ensures Opened(aead, kdf, passphrase, HeaderBytes(h) + trailing) == Ok([])
  {
    ParseBuild(h);
    assert (HeaderBytes(h) + trailing)[..HEADER_LEN] == HeaderBytes(h);
  }
}

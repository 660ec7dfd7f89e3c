/** A file's whole life: sealed, split among peers while the server is away,
    forwarded or rebuilt, and opened again. */
module Lifecycle {
  import opened Bytes
  import opened Erasure
  import opened ShardFile
  import opened Recover
  import opened SafeName
  import opened Sync
  import opened Client
  import Manifests
  import Stream

  /** A peer that still holds its chunk answers with it; the others as they like. */
  ghost predicate HoldersAnswer(env: Env, s: State, u: Upload, refs: seq<ShardRef>, fetches: seq<Fetch>) {
    |fetches| == |refs|
    && (forall i :: 0 <= i < |refs| && InRange(refs[i]) && Held(s.held, refs[i]) ==>
          fetches[i] == Fetched(ShardOf(ShardAt(refs[i].index), u.stream)))
    && (forall i :: 0 <= i < |fetches| && fetches[i].Fetched? ==> fetches[i].body in env.seen)
  }

  lemma {:induction false} HoldersSuffice(env: Env, s: State, u: Upload, m: Manifests.Manifest, fetches: seq<Fetch>)
    requires Inv(env, s) && u in s.uploads && ManifestOf(env, u, m) && TwoHeld(s.held, m.shards)
    requires HoldersAnswer(env, s, u, m.shards, fetches)
    ensures RebuildOk(Collect(m.shards, fetches, |m.shards|, env.hash), HalfSize(u.stream))
  {
    hide Reread, SeenUploads, RebuildOk, Collect, GoodProc;
    var i, j :| 0 <= i < j < |m.shards| && Held(s.held, m.shards[i]) && Held(s.held, m.shards[j]);
    assert Genuine(m.shards, u.stream, env.hash) && DistinctIndices(m.shards);
    assert AllSeen(m.shards, fetches, u.stream, env.seen) by { GoodOf(env, s.uploads, u); }
    HonestPairSuffices(m.shards, fetches, u.stream, env.hash, env.seen, i, j);
  }

  /** And when the server then connects and the transfer gets through, the attempt
      delivers. */
  lemma {:induction false} HoldersDeliver(env: Env, s: State, name: string, luck: Luck)
    requires Inv(env, s) && name in s.pending && TwoHeld(s.held, s.pending[name].shards)
    requires name in s.written && HoldersAnswer(env, s, s.written[name], s.pending[name].shards, Answers(luck, |s.pending[name].shards|))
    requires luck.connects && luck.bodyArrives && luck.replyArrives
    ensures Succeeds(env, s, s.pending[name], luck)
  {
    hide Inv, Collect, RebuildOk, TwoHeld, ManifestOf;
    PendingManifest(env, s, name);
    HoldersSuffice(env, s, s.written[name], s.pending[name], Answers(luck, |s.pending[name].shards|));
  }

  /** After any run, for every upload last recorded under its name: either the server
      has had the stream (or the same content, by its tag), or the peers that still
      hold chunks are enough, and whatever is rebuilt from them opens, with the same
      passphrase, to the original plaintext. */
  lemma {:induction false} PlaintextSurvives(env: Env, s: State, name: string, fetches: seq<Fetch>, aead: Stream.Aead, kdf: Stream.Kdf,
                                             passphrase: string, salt: seq<byte>, ivs: nat -> seq<byte>, plain: seq<byte>)
    requires GoodEnv(env) && Reaches(env, true, INITIAL, s) && name in s.written
    requires |salt| == Stream.SALT_LEN && |plain| + Stream.BLOCK_SIZE <= Stream.U64
    requires var key := kdf(passphrase, salt, Stream.KDF_ITERATIONS);
      Stream.Sealable(aead, key, Stream.HeaderBytes(Stream.SealHeader(plain, salt)), ivs, plain)
      && s.written[name].stream == Stream.SealedFile(aead, key, salt, ivs, plain)
    requires name in s.pending ==> HoldersAnswer(env, s, s.written[name], s.pending[name].shards, fetches)
    ensures var u := s.written[name];
      u in s.accepted || u in s.tagSeen
      || (name in s.pending
          && var m := s.pending[name];
             var got := Collect(m.shards, fetches, |m.shards|, env.hash);
             RebuildOk(got, m.shardSize)
             && forall pair, out :: JoinedFrom(got.Offered(), m.shardSize, pair, m.streamSize, out) ==>
                  Stream.Opened(aead, kdf, passphrase, out) == Stream.Ok(plain))
    ensures Stream.Opened(aead, kdf, passphrase, s.written[name].stream) == Stream.Ok(plain)
  {
    hide Inv, Runs, Reaches, GoodEnv, Collect, RebuildOk, JoinedFrom, Stream.Opened, Stream.SealedFile, Stream.Sealable, HoldersAnswer, TwoHeld;
    EveryRunIsDurable(env, s);
    var u := s.written[name];
    assert DurableUpload(s, u, false);
    Stream.OpenSealed(aead, kdf, passphrase, salt, ivs, plain, []);
    assert u.stream + [] == u.stream;
    if u !in s.accepted && u !in s.tagSeen {
      RunsKeepInv(env, s);
      ChunksSuffice(env, s, name, fetches);
    }
  }

  /** From a manifest with two chunks still held, exactly the stream is rebuilt. */
  lemma {:induction false} ChunksSuffice(env: Env, s: State, name: string, fetches: seq<Fetch>)
    requires Inv(env, s) && name in s.pending && name in s.written && TwoHeld(s.held, s.pending[name].shards)
    requires HoldersAnswer(env, s, s.written[name], s.pending[name].shards, fetches)
    ensures |fetches| == |s.pending[name].shards|
    ensures var m := s.pending[name];
      var got := Collect(m.shards, fetches, |m.shards|, env.hash);
      RebuildOk(got, m.shardSize)
      && forall pair, out :: JoinedFrom(got.Offered(), m.shardSize, pair, m.streamSize, out) ==> out == s.written[name].stream
  {
    hide Inv, Collect, RebuildOk, JoinedFrom, TwoHeld;
    var u, m := s.written[name], s.pending[name];
    PendingManifest(env, s, name);
    HoldersSuffice(env, s, u, m, fetches);
    forall pair, out | JoinedFrom(Collect(m.shards, fetches, |m.shards|, env.hash).Offered(), m.shardSize, pair, m.streamSize, out)
      ensures out == u.stream
    {
      RebuiltIsStream(env, s, u, m, fetches, pair, out);
    }
  }

  lemma {:induction false} RunsKeepInv(env: Env, s: State)
    requires GoodEnv(env) && Reaches(env, true, INITIAL, s)
    ensures Inv(env, s)
  {
    hide Inv, Runs, GoodEnv;
    InitialInv(env);
    var steps :| Runs(env, true, INITIAL, steps, s);
    RunInv(env, true, INITIAL, steps, s);
  }

  lemma {:induction false} PendingManifest(env: Env, s: State, name: string)
    requires Inv(env, s) && name in s.pending
    ensures name in s.written && s.written[name] in s.uploads && s.written[name].name == name
    ensures ManifestOf(env, s.written[name], s.pending[name])
    ensures s.pending[name].shardSize == HalfSize(s.written[name].stream) && s.pending[name].streamSize == |s.written[name].stream|
  {
    hide GoodEnv, SeenUploads, GoodProc, RefsOf, Reread;
  }

  lemma {:induction false} RebuiltIsStream(env: Env, s: State, u: Upload, m: Manifests.Manifest, fetches: seq<Fetch>, pair: ShardPair, out: seq<byte>)
    requires Inv(env, s) && u in s.uploads && ManifestOf(env, u, m) && HoldersAnswer(env, s, u, m.shards, fetches)
    requires RebuildOk(Collect(m.shards, fetches, |m.shards|, env.hash), m.shardSize)
    requires JoinedFrom(Collect(m.shards, fetches, |m.shards|, env.hash).Offered(), m.shardSize, pair, m.streamSize, out)
    ensures out == u.stream
  {
    hide Inv, Collect, RebuildOk, JoinedFrom, ManifestOf;
    assert RebuildsTo(env, m, fetches, out);
    RebuildsOwnStream(env, s, u, m, fetches, out);
  }

  // ----- one upload, from the plaintext -----

  /** What a file is sealed with: the passphrase, and what the random source, the
      cipher and the hashes give. */
  datatype Sealer = Sealer(passphrase: string, salt: seq<byte>, ivs: nat -> seq<byte>, aead: Stream.Aead, kdf: Stream.Kdf,
                           hmac: seq<byte> -> string)
  {
    function Key(): Stream.Key { kdf(passphrase, salt, Stream.KDF_ITERATIONS) }

    /** No failure of the random source or of the key derivation. */
    predicate Seals(plain: seq<byte>) {
      |salt| == Stream.SALT_LEN && |Key()| == Stream.KEY_LEN
      && forall i :: 0 <= i < Stream.Blocks(plain) ==> |ivs(i)| == Stream.IV_LEN
    }

    function Sealed(name: string, plain: seq<byte>): Upload {
      Upload(name, Stream.SealedFile(aead, Key(), salt, ivs, plain), hmac(plain))
    }
  }

  /** Checks the name, seals, and takes the server or the peers. It succeeds exactly
      when the name is safe, the sealing goes through and the outside does its part; a
      bad name or a failed sealing leaves everything alone. */
  method UploadFile(w: World, pid: nat, name: string, plain: seq<byte>, sealer: Sealer, reachable: bool, luck: Luck,
                    peers: seq<string>, offers: seq<Offer>) returns (ok: bool)
    requires Inv(w.env, w.s) && pid !in w.s.procs
    requires IsSafeName(name) && sealer.Seals(plain) ==>
      FreshChunks(w.env, w.s, sealer.Sealed(name, plain)) && GoodUpload(w.env, sealer.Sealed(name, plain))
    requires forall i :: 0 <= i < |peers| ==> Manifests.Token(peers[i])
    requires |offers| == 4 && forall i :: 0 <= i < 4 ==> offers[i].acknowledged ==> offers[i].kept
    requires forall q :: q in w.s.procs && w.s.procs[q].Syncing() ==> w.s.procs[q].manifest.name != name
    modifies w
    ensures Reaches(w.env, true, old(w.s), w.s) && Inv(w.env, w.s)
    ensures ok <==>
      (IsSafeName(name) && sealer.Seals(plain) && CanUpload(old(w.s), sealer.Sealed(name, plain), reachable, luck, peers, offers))
    ensures !IsSafeName(name) || !sealer.Seals(plain) ==> w.s == old(w.s)
    ensures var u := sealer.Sealed(name, plain);
      w.s.server == if IsSafeName(name) && sealer.Seals(plain) && reachable
        && luck.connects && !AlreadyThere(old(w.s), u, luck) && luck.bodyArrives
        then old(w.s).server[name := Stored(u.stream, u.tag)] else old(w.s).server
    ensures ok && reachable ==> name in w.s.server && w.s.server[name].tag == sealer.hmac(plain)
    ensures ok && !reachable ==> name in w.s.written && w.s.written[name] == sealer.Sealed(name, plain)
    ensures ok && !reachable ==> name in w.s.pending && DurableUpload(w.s, sealer.Sealed(name, plain), false)
    ensures !ok || reachable ==> w.s.pending == old(w.s).pending && w.s.written == old(w.s).written
  {
    hide Inv, Runs, FreshChunks, GoodUpload, Manifests.Token, IsSafeName, Stream.SealedFile, DurableUpload, AcknowledgedRefs, MakeManifest;
    ReachSame(w.env, true, w.s);
    if !IsSafeName(name) {
      return false;
    }
    var sealed, tag := Stream.SealFile(plain, sealer.passphrase, sealer.salt, sealer.ivs, sealer.aead, sealer.kdf, sealer.hmac);
    if sealed.Err? {
      return false;
    }
    assert sealer.Seals(plain) && Upload(name, sealed.value, tag) == sealer.Sealed(name, plain);
    ok := UploadSealed(w, pid, Upload(name, sealed.value, tag), reachable, luck, peers, offers);
  }
}

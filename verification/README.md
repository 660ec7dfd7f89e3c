# Verified model of a personal cloud store

The system stores a person's files on one server, encrypted on the client. While the server
is away, a sealed file is split among four peers so that any two of them can give it back, and
it is forwarded when the server returns. This project models that whole path in Dafny, from
the field arithmetic of the erasure code to the threads of the server, and proves what the
design promises of it: for every input, every run and every interleaving.

`dafny verify dfyconfig.toml` checks everything. Nothing here runs the original program.

## What is modelled

| file | part of the system |
|---|---|
| `Gf2Poly.dfy`, `Gf256.dfy` | polynomials over GF(2), long division, and GF(2^8) as polynomials modulo 0x11B (section 4.2 of FIPS 197) |
| `Erasure.dfy`, `ShardFile.dfy`, `Recover.dfy` | the 2-of-4 code, splitting and joining files, rebuilding from peers that may answer with anything |
| `Stream.dfy` | the sealed container over an AEAD and a key derivation given as parameters |
| `Protocol.dfy`, `Manifest.dfy`, `SafeName.dfy`, `Text.dfy` | the line grammar, sizes, manifests, safe names, searching and signed numbers |
| `Sync.dfy`, `Client.dfy`, `Lifecycle.dfy` | offline fallback and forwarding as a transition system, the client's routines over it, and a file's whole life |
| `Wire.dfy`, `Store.dfy`, `Session.dfy`, `SessionEffects.dfy`, `Remote.dfy`, `Conversation.dfy` | byte queues, the store on disk, both ends of a connection, what each line does, and the simple map a conversation amounts to |
| `StoreThreads.dfy` | the store under concurrent connections, step by step |
| `Hex.dfy`, `Passwd.dfy`, `Users.dfy`, `UserCache.dfy` | password verifiers, the life of an account, the account list cached by a server process |
| `Json.dfy`, `Watch.dfy` | the web page's JSON functions and the watcher's state file |
| `Bytes.dfy`, `Wrappers.dfy` | bytes and stock types |

Where the original changes things step by step, so does the model: loops over arrays, files as
objects with a position, sessions and stores as classes. Each such method is proved against a
specification function, and what the design promises is proved about that function. The two
protocols that several processes share (`Sync.dfy`, `StoreThreads.dfy`) and the cache that
several processes update (`UserCache.dfy`) are transition systems whose steps are single
effects; a run is any sequence of enabled steps, and a crash may fall between any two.

On the text side a `char` stands for one byte. In `Stream.dfy` and below, bytes are numbers
below 256. Sizes are unbounded numbers except where the original's 64-bit arithmetic can be
seen: `ParseSize`, `BlockCount`, printed and parsed integers.

## Hypotheses

Each is a `requires` or a guard of a step, never an assumption about all values.

- The hash has no collision among the byte strings that ever meet it, and its digests are 64
  hex digits (`GoodEnv`, `CollisionFree`).
- Sealing is fresh: no chunk of one upload is a chunk of an earlier one (`FreshChunks`), and no
  two sealing runs share a salt (`History`).
- AES-GCM opens what it sealed (`Correct`) and nothing else (`Unforgeable`). PBKDF2 separates
  the passwords that are actually used (`Separates`).
- A manifest is written whole or not at all, and it lists an index at most once. Files are sealed
  for one account. Two peers keep their chunk of every pending file (the guard of `PeerLoses`),
  and a peer that acknowledges a chunk has it.
- File names in requests do not begin with a space (stored ones may), tags are empty or single
  words of at most 3000 bytes other than `-` (the program's own are 64 hex digits), a listing has
  at most a million files, and times fit 64 bits. Credentials contain no line feed.
- Names of temporary files are unique; an open file keeps its content when its name is replaced
  or removed; a file system shows each rename at once and may refuse one; removals do not fail.
- Only `EveryInterleavingIsConsistent` and `CleanLookups` ask that tag files can be opened and
  written and that the server does not stop inside the critical section (`Fault`);
  `ShownExactly` says what shows when they cannot and when it does.
- Every outside replacement of the account file is atomic and carries a fresh timestamp.

## Where the program falls short, and exactly when

Each of these is a lemma about the code as it is.

- `Sync.StepDurableIff`, `Sync.RunDurableIff`, `Sync.HadExactly`, `Sync.OverlapLosesFile`: a sync
  removes the manifest of its name without looking whether a newer upload has replaced it. A
  recorded file is lost at exactly those removals of whose newer upload the server has had
  nothing since it was recorded, neither its stream nor its non-empty tag under that name. No
  run in which uploads do not overlap a sync of the same name contains one.
- `Manifests.ReadUndoesWrite`: a name that begins with a space does not survive its manifest;
  every other safe name does.
- `Manifests.ReadIsSound`: a manifest file without a layout line reads, with both counts zero, and
  written again no longer does; every other one that reads does.
- `Remote.BodyConsumedIff`: a PUTFILE refused for login, size or name leaves its body to be read
  as requests.
- `StoreThreads.GetIsExactIff`, `VersionCounts`, `OvertakenGet`, `DeletedGet`, `GapIsReached`: a
  GETFILE opens the file after letting go of the lock. It sends what it announced exactly when
  the file then begins with it: always when no commit or deletion of the name has begun since;
  a PUT in the gap is sent cut to the old size or fails, and a deletion drops the connection.
- `StoreThreads.ShownExactly`, `OpenFailureShows`, `ShortWriteShows`: opening the tag file empties
  it, and failures to open or write it go unnoticed. The body shown is always whole; its tag is
  wrong exactly when the open failed over a different tag, or the file was emptied and less than
  the tag was written.
- `Stream.EmptyAuthenticatesNothing`: a container that declares no plaintext opens under any key.
- `Recover.RepeatedIndexMisleadsIff`: some answers make a rebuild succeed with a wrong stream
  exactly when the manifest lists an index twice and another beside it (which must not be d0 if
  the stream is a single byte).
- `UserCache.CacheAgreesIff`, `OvertakenSave`, `StaleIsReached`, `StaleStays`, `ReplacementHeals`: a
  process that saves reads the timestamp after its rename. When another process replaces the file
  between the two, the cache agrees with the file exactly as long as both have the same accounts.
  Look-ups do not mend it; the next replacement does, and so does a save that is not overtaken.
- `Json.RequestRecovered`: values with other control bytes, or longer than 4096 bytes, do not
  come back.
- `Watch.EntryReadsBack`: an entry whose time occurs within its size is read back under a wrong
  name.

The code and its own documents differ in two places, and the model follows the code.
`include/pcs/protocol.hpp:23` has the body follow the reply `OK`; the client sends it at once
(`src/client/remote.cpp:204-210`) and `OK` comes after it (`src/server/session.cpp:268`).
`README.md:159` gives the order name, size, tag; the line carries size, tag, name.

## Model

| member | source | states |
|---|---|---|
| `Gf256.Mul` | src/core/gf256.cpp:7-17 | For every pair of bytes the shift-and-reduce loop returns their product as polynomials over GF(2), reduced by x^8+x^4+x^3+x+1 (section 4.2 of FIPS 197) |
| `Gf256.MulLoopStep` | src/core/gf256.cpp:9-15 | One turn of the loop leaves `result + a*b`, reduced, as it was |
| `Gf256.GfMulComm` | src/core/gf256.cpp:7-17 | The field product is commutative, proved from the polynomial specification |
| `Gf256.GfMulAssoc` | src/core/gf256.cpp:7-17 | The field product is associative |
| `Gf256.GfMulDistrib` | src/core/gf256.cpp:7-17 | The field product distributes over XOR on both sides |
| `Gf256.GfMulOne` | src/core/gf256.cpp:7-17 | One is neutral |
| `Gf256.Irreducible` | src/core/gf256.cpp:19-28 | No polynomial of degree 1 to 7 divides the modulus, which is why every non-zero byte has an inverse |
| `Gf256.Inverse` | src/core/gf256.cpp:19-28 | Every non-zero byte has an inverse: Euclid's algorithm reaches one |
| `Gf256.Inv` | src/core/gf256.cpp:19-28 | The search returns that inverse, and 0 for 0 |
| `Gf256.InverseUnique` | src/core/gf256.cpp:19-28 | A byte is the inverse found if and only if the product is 1 |
| `Gf256.ScaleRoundTrip` | src/core/gf256.cpp:7-28 | Multiplying by a non-zero coefficient and by its inverse undo each other, in either order |
| `Gf256.ScaleBufRoundTrip` | src/core/gf256.cpp:30-32 | The same, lifted to buffers of any length |
| `Gf256.ScaleInto` | src/core/gf256.cpp:30-32 | The first n bytes of the destination become the scaled source; the rest is untouched, even when the two buffers are the same |
| `Gf256.XorInto` | src/core/gf256.cpp:34-36 | The first n bytes become the sum of the two sources; the rest is untouched |
| `Erasure.MakeParity0` | src/core/erasure.cpp:19-21 | The buffer becomes shard p0 of the two halves, for every length |
| `Erasure.MakeParity1` | src/core/erasure.cpp:23-26 | The buffer becomes shard p1 of the two halves, for every length |
| `Erasure.ChoosePair` | src/core/erasure.cpp:28-48 | Succeeds if and only if two different shards are present; then names the first usable pair of the table, and that pair has a recovery rule |
| `Erasure.AllPairsListed` | src/core/erasure.cpp:28-48 | Two shards are present if and only if some pair of the table is usable |
| `Erasure.Reconstruct` | src/core/erasure.cpp:50-105 | The rule of each of the six pairs computes the decoding of the two buffers; any other pair, and only that, is refused |
| `Erasure.SolveParity1` | src/core/erasure.cpp:75-94 | The rules for d0 or d1 with p1: one coefficient is removed, the other divided out |
| `Erasure.SolveBoth` | src/core/erasure.cpp:95-103 | The rule for p0 with p1: d1 = p1 + 2.p0, then d0 = p0 + d1 |
| `Erasure.DecodeEncode` | src/core/erasure.cpp:50-105 | Decoding any two encoded shards gives both halves back, for all six pairs and every length |
| `Erasure.EncodeDecode` | src/core/erasure.cpp:19-105 | Re-encoding what any two arbitrary buffers decode to gives those two buffers back |
| `Erasure.EncodeSlices` | include/pcs/erasure.hpp:14-16 | Parity taken slice by slice and concatenated equals parity of the whole |
| `Erasure.DecodeSlices` | include/pcs/erasure.hpp:14-16 | Reconstruction slice by slice and concatenated equals reconstruction of the whole |
| `Erasure.EncodePartition` | include/pcs/erasure.hpp:14-16 | Over any partition of the halves, the parities of the pieces make up the parity of the whole |
| `Erasure.DecodePartition` | include/pcs/erasure.hpp:14-16 | Over any partition, what is reconstructed piece by piece makes up what is reconstructed from the whole |
| `ShardFile.ReadPadded` | src/core/shardfile.cpp:19-24 | A short read is padded with zeros to the length wanted |
| `ShardFile.SlicesOfHalves` | src/core/shardfile.cpp:39-83 | What is read at the two moving offsets is a slice of d0 and a slice of the zero-padded d1 |
| `ShardFile.FillBuffers` | src/core/shardfile.cpp:63-71 | After one refill the four buffers hold the same slice of the four shards |
| `ShardFile.AppendSlices` | src/core/shardfile.cpp:73-82 | After one append the four files hold one slice more of the four shards |
| `ShardFile.SplitStream` | src/core/shardfile.cpp:28-93 | For every stream, empty, odd or many slices long, the four files are its four shards |
| `ShardFile.TwoWrites` | src/core/shardfile.cpp:149-160 | Writing one slice of each half at its own offset turns the file with a hole for `done` bytes into that for `done + n` |
| `ShardFile.WriteSlices` | src/core/shardfile.cpp:149-160 | The two seeks and writes keep the partly joined file |
| `ShardFile.JoinSlice` | src/core/shardfile.cpp:129-162 | One turn of the join loop: read both shards, reconstruct, write at two offsets |
| `ShardFile.JoinPair` | src/core/shardfile.cpp:129-165 | The whole loop leaves both decoded halves one after the other |
| `ShardFile.JoinShards` | src/core/shardfile.cpp:95-175 | Succeeds if and only if two shards are present at the right size, and then returns the joining of a usable pair, trimmed to the stream size |
| `ShardFile.JoinUndoesSplit` | src/core/shardfile.cpp:28-175 | Joining any two or more true shards of a stream gives that stream |
| `Recover.RebuildStream` | src/client/recover.cpp:20-77 | Keeps exactly the answers whose hash and index check out, succeeds if and only if two are usable, and joins those |
| `Recover.TakeEffect` | src/client/recover.cpp:31-63 | What one answer changes: only a verified one marks its index usable and is counted |
| `Recover.CollectTrustworthy` | src/client/recover.cpp:31-63 | After any number of answers, the usable indices are exactly the verified ones and hold the true shards, each counted once |
| `Recover.RebuildCorrect` | src/client/recover.cpp:31-76 | Whatever bytes peers return: rebuilding succeeds if and only if two answers verified, and every possible output is the original stream |
| `Recover.HonestPairSuffices` | src/client/recover.cpp:31-76 | Two peers that answer truthfully are enough, whatever the others do |
| `Recover.RepeatedIndexMisleadsIff` | src/client/recover.cpp:31-76 | For a manifest of true shards with any indices: some answers make the rebuild succeed with a wrong stream if and only if it lists an index twice and beside it another one, which for a stream of one byte must not be d0 |
| `Recover.RepeatMisleads` | src/client/recover.cpp:31-63 | How: a true answer, a bad one for the same index, which replaces the file but not its mark, and a true one for another index |
| `Recover.BadShardShows` | src/core/shardfile.cpp:95-175 | Joining with a shard whose first byte is wrong never gives the stream |
| `Stream.PutUint` | src/core/stream.cpp:22-30 | The byte loop appends the little-endian form of the value |
| `Stream.GetUint` | src/core/stream.cpp:32-42 | The byte loop returns the value of the bytes |
| `Stream.GetPut` | src/core/stream.cpp:22-42 | Reading a written integer gives it back, for any width it fits |
| `Stream.PutGet` | src/core/stream.cpp:22-42 | Writing what was read gives the same bytes back |
| `Stream.BuildHeader` | src/core/stream.cpp:44-54 | The header is its fields in order |
| `Stream.ParseBuild` | src/core/stream.cpp:44-85 | Parsing inverts building on every plausible header, which is 37 bytes long |
| `Stream.BuildParse` | src/core/stream.cpp:44-85 | A header that parses is plausible and is the printed form of what it parses to |
| `Stream.AadInjective` | src/core/stream.cpp:89-94 | The associated data of a block determines its header and its index |
| `Stream.SealBlock` | src/core/stream.cpp:154-196 | One block is sealed under the header and its own index, or refused for a bad key or iv |
| `Stream.SealAll` | src/core/stream.cpp:154-196 | The loop emits exactly the blocks of the plaintext, in order, and shows the tagger the whole plaintext |
| `Stream.SealFile` | src/core/stream.cpp:103-207 | Each failure of the random source or the key derivation gives its own error; otherwise header and blocks, with the deduplication tag of the plaintext |
| `Stream.ReadBlock` | src/core/stream.cpp:247-278 | One block is cut off the stream, or the stream is truncated or its length field implausible |
| `Stream.OpenAll` | src/core/stream.cpp:247-299 | The loop opens block after block, each under its own index, and stops at the first that fails |
| `Stream.OpenFile` | src/core/stream.cpp:209-313 | A bad header leaves the output path alone; after that, the path holds the plaintext or nothing |
| `Stream.OpenSealed` | src/core/stream.cpp:103-313 | Opening what was sealed with the same passphrase gives the plaintext, whatever its length and whatever follows the last block |
| `Stream.CountMatches` | src/core/stream.cpp:96-99 | The 64-bit block count is the number of blocks the sealing loop emits, or 0 when the sum wraps |
| `Stream.WrappedCountRefused` | src/core/stream.cpp:96-302 | When the count wraps, the final size check refuses the stream |
| `Stream.OpenedBlock` | src/core/stream.cpp:280-286 | Under an ideal AEAD, a block that opens is that very block of the one sealing run with this header and key |
| `Stream.OpenedBlocks` | src/core/stream.cpp:247-299 | Blocks that open in turn are consecutive blocks of that run's plaintext |
| `Stream.AcceptedIsGenuine` | src/core/stream.cpp:89-302 | For every byte string whose header declares a non-empty plaintext: if opening succeeds, the output is the whole plaintext of one sealing run with that header and key |
| `Stream.EmptyAuthenticatesNothing` | src/core/stream.cpp:243-302 | A header that declares an empty plaintext is accepted under any key with any trailing bytes: why the theorem above excludes it |
| `Protocol.Split` | src/core/protocol.cpp:10-20 | Returns the maximal space-free pieces of the line, in order |
| `Protocol.SplitN` | src/core/protocol.cpp:22-39 | Returns the bounded splitting, including for limits 0 and 1 |
| `Protocol.SplitNLaw` | src/core/protocol.cpp:22-39 | Bounded splitting equals full splitting when the limit exceeds the field count; otherwise it is the first k-1 fields and the verbatim suffix where field k begins |
| `Protocol.SplitJoin` | src/core/protocol.cpp:10-20 | Splitting inverts joining words with single spaces |
| `Protocol.WordThen` | src/core/protocol.cpp:10-39 | A leading word and one space contribute exactly that field to both splittings |
| `Protocol.ParseSize` | src/core/protocol.cpp:41-55 | In 64-bit arithmetic, where `limit - digit` may wrap, accepts exactly 1 to 20 digits with value at most the limit |
| `Protocol.ParsePrinted` | src/core/protocol.cpp:41-55 | A printed 64-bit size parses back, if and only if the limit admits it |
| `Manifests.Write` | src/core/manifest.cpp:31-54 | The text is the heading, the six fields and one line per shard |
| `Manifests.Step` | src/core/manifest.cpp:81-125 | One line updates the record read so far, is ignored, or is an error, as its key and field count say |
| `Manifests.Read` | src/core/manifest.cpp:56-140 | The loop is the fold of that over all lines, followed by the final checks |
| `Manifests.Peek` | src/core/manifest.cpp:142-156 | Passes over the first line, whatever it says, and finds the first two-field server line after it |
| `Manifests.ParseInt` | src/core/manifest.cpp:20-27 | Accepts exactly the sizes between the two bounds |
| `Manifests.ReadUndoesWrite` | src/core/manifest.cpp:31-140 | For every well-formed manifest with any number of shards, reading gives back what was written if and only if the name does not begin with a space |
| `Manifests.ReadIsSound` | src/core/manifest.cpp:56-140 | Whatever file is read: the manifest that comes out has a safe name without a leading space, a server, shards of index 0 to 3 with safe ids, and sizes and counts within bounds; written again it reads back as itself if and only if it has a data shard, that is, the file had a layout line |
| `Manifests.UnknownIgnored` | src/core/manifest.cpp:81-126 | Lines with other keys or another number of fields make no difference |
| `Manifests.PeekAgrees` | src/core/manifest.cpp:142-156 | The cheap probe finds the server the full parse finds, on every written manifest |
| `Sync.StepInv` | src/client/sync.cpp:39-84 | Every step of every process keeps: each manifest records true shards of the upload behind it, and each sync works on the stream that was sealed |
| `Sync.RebuildsOwnStream` | src/client/recover.cpp:31-76 | Rebuilding from a recorded manifest returns the stream of the upload that wrote it, whatever peers answer |
| `Sync.RereadsItself` | src/client/upload.cpp:144-148 | The manifest an upload writes reads back as itself |
| `Sync.ReleaseKeepsOthers` | src/client/recover.cpp:79-94 | Releasing chunks of a forwarded upload never takes a chunk of another |
| `Sync.StepDurableIff` | src/client/sync.cpp:39-84 | In any reachable durable state, a step keeps every recorded upload durable if and only if it is not the removal of a manifest newer than the one forwarded, of whose upload the server has had neither the stream nor (in the form with `all`, at any moment; otherwise, as a sync saw) the non-empty tag since it was recorded |
| `Sync.RunDurableIff` | src/client/sync.cpp:39-84 | Over any run, overlaps included: everything recorded stays durable throughout if and only if no step is such a removal |
| `Sync.HadExactly` | src/client/sync.cpp:52-76 | What that book-keeping means, over every run: an upload counts as accepted, or as held by its tag, if and only if at some moment since it was recorded the server had its stream, or its non-empty tag, under its name; what it had before, and dropped, does not count |
| `Sync.EveryRunIsDurable` | src/client/upload.cpp:101-148 | Through crashes, lost replies, retries and lying peers, if no upload overlaps a sync of its own name: each recorded upload has two chunks still held under its manifest, or since it was recorded the server has had its stream, or a sync has found its tag there, under that name |
| `Sync.EveryRunForwardsTruth` | src/client/sync.cpp:52-75 | In every run, overlaps included, the stream a sync is about to send is the one that was sealed, under its own name and tag |
| `Sync.OverlapLosesFile` | src/client/sync.cpp:78-83 | Why overlaps matter: an upload that replaces the manifest while a sync of that name runs can be lost, unless both carry the same non-empty tag |
| `Client.ReleaseShards` | src/client/recover.cpp:79-94 | Exactly the chunks whose peers could be reached are gone; nothing else changes |
| `Client.Deliver` | src/client/sync.cpp:52-76 | Asks first, sends unless the server holds the same tag; succeeds if and only if that is so or body and reply arrive, and a body that has arrived is what the server then holds, reply or not; success means that the upload behind the manifest counts as accepted, or its tag as found |
| `Client.ReadAndRebuild` | src/client/sync.cpp:39-50 | Reads a manifest and rebuilds the stream of the upload behind it, if and only if the answers allow it; otherwise nothing has changed |
| `Client.SyncOne` | src/client/sync.cpp:39-84 | Succeeds if and only if the rebuild, the connection and the delivery do; then the manifest and the reachable chunks are gone and the server has had the stream, or the tag, since that upload was recorded; a failure deletes nothing; the server's files change as the delivery says, at that name alone |
| `Client.SyncOnce` | src/client/sync.cpp:86-126 | Every manifest is counted once, those waiting being exactly the pending ones whose server is offline; every pending name whose server is back and whose rebuild and delivery succeed is gone and has arrived, for distinct names no other is, and as many as were synced; a manifest that stays is as it was, with every chunk it had |
| `Client.PlaceShards` | src/client/upload.cpp:101-131 | Each shard is hashed and offered to its own peer; what is recorded is exactly the sequence of acknowledged references, index, hash and peer, and the chunks that come to be held are exactly those the peers kept |
| `Client.DistributeToPeers` | src/client/upload.cpp:66-154 | Succeeds if and only if there are four peers and two acknowledge; then the manifest of exactly the acknowledged references is pending and the upload is durable; a failure records nothing; the server is not touched |
| `Client.AcknowledgedTwice` | src/client/upload.cpp:133-140 | The count that decides is two or more if and only if two different offers were acknowledged |
| `Client.UploadToServer` | src/client/upload.cpp:31-62 | Succeeds if and only if the server connects and either answers that it holds the same non-empty tag or takes the body and replies; a body that has arrived is stored, reply or not, and nothing else changes |
| `Client.UploadSealed` | src/client/upload.cpp:194-201 | Takes the server when it is reachable and the peers when not; succeeds if and only if that server takes it, or there are four peers and two of them acknowledge; says what server, chunks and manifests then are |
| `Lifecycle.UploadFile` | src/client/upload.cpp:160-202 | From the plain file: succeeds if and only if the name is safe, the sealing goes through, and server or peers do their part; a bad name or a failed sealing changes nothing; success means the server holds the tag or the sealed file is pending and durable |
| `Lifecycle.HoldersSuffice` | src/client/recover.cpp:31-76 | Peers that still hold two chunks of a manifest are enough, whatever the others answer |
| `Lifecycle.HoldersDeliver` | src/client/sync.cpp:39-84 | When besides the server connects and the transfer gets through, the attempt on that manifest succeeds |
| `Lifecycle.PlaintextSurvives` | src/client/upload.cpp:160-202 | After any run in which no upload overlaps a sync of its name: since the upload was recorded the server has had the sealed stream or a sync has found its tag there, or whatever is rebuilt from the peers that still hold chunks opens, with the passphrase it was sealed with, to the original plaintext |
| `Wire.LineRoundTrip` | src/core/wire.cpp:199-211 | A sent line is received as it was sent and nothing after it is read |
| `Wire.TakeFramed` | src/core/wire.cpp:199-211 | Any sent line is received without its carriage returns if what is left has at most 4096 bytes, and not at all otherwise |
| `Wire.Pipe.SendLine` | src/core/wire.cpp:149-152 | Appends the line and a newline |
| `Wire.Pipe.Recv` | src/core/wire.cpp:185-197 | Delivers exactly the bytes asked for, in order, or fails |
| `Wire.Pipe.ReadLine` | src/core/wire.cpp:199-211 | Delivers the next line without carriage returns, or fails at the end of data or past 4096 bytes |
| `Store.PathsInjective` | src/server/store.cpp:42-73 | The path of a file, and that of its tag, determine account and name; no file is ever at the path of a tag |
| `Store.AreasDisjoint` | src/server/store.cpp:64-78 | Account files, chunks and temporary files never share a path |
| `Store.ChunkPathInjective` | src/server/store.cpp:70-73 | The path of a chunk determines its id |
| `Store.StaysUnderRoot` | src/server/users.cpp:46-56 | Validated accounts and names are single path components: accounts of 1 to 32 bytes that begin with a lower-case letter, names of 1 to 255 that do not begin with a dot |
| `Store.CommitView` | src/server/store.cpp:96-106 | A commit shows at its own account and name with its own tag, and changes nothing else visible |
| `Store.RemoveView` | src/server/store.cpp:108-119 | A removal takes the file and its tag, and changes nothing else visible |
| `Store.ChunkView` | src/server/store.cpp:70-73 | Chunks are invisible to every account's files |
| `Store.NamesAreViews` | src/server/store.cpp:121-158 | The listed names are exactly those with a visible file |
| `Store.SortNames` | src/server/store.cpp:121-158 | The listing is sorted byte-wise, each name once, whatever the directory order |
| `Store.SortedInOrder` | src/server/store.cpp:121-158 | In the listing every earlier name is byte-wise below every later one |
| `Session.RightsAreEarned` | src/server/session.cpp:181-215 | The account changes only by a login that verifies, chunk access only by the right token |
| `Session.ConnectionConfined` | src/server/session.cpp:98-215 | Over every sequence of input bytes on a new connection that does not open like a web request: all output, and all changes, depend only on files of accounts successfully logged in to (and chunks only after a successful AUTH); everything else stored is neither read nor changed |
| `Session.HandledStep` | src/server/session.cpp:131-179 | The same for a single line, command by command |
| `Session.Session.ReceiveToFile` | src/server/session.cpp:27-58 | Takes exactly `size` bytes off the connection into the file, or fails at its end |
| `Session.Session.SendFromFile` | src/server/session.cpp:60-75 | Sends exactly the file |
| `Session.Session.DoLogin` | src/server/session.cpp:181-199 | State, store, unread input and output are those of the specification of LOGIN |
| `Session.Session.DoAuth` | src/server/session.cpp:201-215 | The same for AUTH; a wrong token ends the connection |
| `Session.Session.DoStat` | src/server/session.cpp:217-232 | The same for STAT |
| `Session.Session.DoPutFile` | src/server/session.cpp:234-272 | The same for PUTFILE, through a temporary file: a broken transfer or a refused rename leaves the stored file as it was |
| `Session.Session.DoGetFile` | src/server/session.cpp:274-296 | The same for GETFILE |
| `Session.Session.DoDelFile` | src/server/session.cpp:298-316 | The same for DELFILE |
| `Session.Session.DoPutChunk` | src/server/session.cpp:318-350 | The same for PUTCHUNK, with the same two failures |
| `Session.Session.DoGetChunk` | src/server/session.cpp:352-374 | The same for GETCHUNK |
| `Session.Session.DoDelChunk` | src/server/session.cpp:376-392 | The same for DELCHUNK |
| `Session.Session.DoList` | src/server/session.cpp:394-409 | The same for LIST |
| `Session.Session.Handle` | src/server/session.cpp:131-179 | Dispatches a line as the specification does, refusing file commands before a login and chunk commands before AUTH |
| `Session.Session.Turn` | src/server/session.cpp:110-113 | One turn of the connection loop reads one line and handles it |
| `Session.Session.Run` | src/server/session.cpp:98-114 | The whole connection: a first line that looks like HTTP is left to the web interface with nothing answered; otherwise store and output are those of serving every line in turn |
| `SessionEffects.HandledView` | src/server/session.cpp:234-316 | Over every line and input, each name of each account shows after it what it showed before, except: the whole announced body with its tag after a PUTFILE of that name by its own account, whose body is all there and which the file system takes; nothing after such a DELFILE. A body that breaks off changes nothing |
| `SessionEffects.HandledChunk` | src/server/session.cpp:318-392 | The same for every chunk, with PUTCHUNK and DELCHUNK |
| `SessionEffects.ServedView` | src/server/session.cpp:98-114 | Over every sequence of input bytes: what shows under any name at the end was there before, or a line served in this connection, while logged in as that account, put it there whole or deleted it |
| `SessionEffects.ServedChunk` | src/server/session.cpp:98-114 | The same for every chunk |
| `SessionEffects.AcknowledgedIff` | src/server/session.cpp:234-350 | PUTFILE and PUTCHUNK are answered OK if and only if they have stored their whole body, DELFILE if and only if there was a file |
| `SessionEffects.HandledRest` | src/server/session.cpp:234-350 | A line takes exactly its announced body off the input; one refused before that takes nothing |
| `SessionEffects.HandledEndsIff` | src/server/session.cpp:131-215 | The connection ends after QUIT, one refused log-in or token, or a body that breaks off, and after no other line |
| `SessionEffects.WebIff` | src/server/http.cpp:76-82 | A first line goes to the web interface if and only if it is one of the six methods, a space and anything |
| `SessionEffects.CommandsAreServed` | src/server/session.cpp:98-114 | No line whose first word is a command of the protocol does |
| `SessionEffects.OthersAreUnknown` | src/server/session.cpp:131-179 | Any other first word is answered as an unknown command and changes nothing |
| `SessionEffects.HandledLocal` | src/server/session.cpp:131-179 | Bytes that come later make no difference to a line whose body is complete |
| `SessionEffects.TurnsAreServed` | src/server/session.cpp:98-114 | A connection that sends well-framed requests gets the same store and the same bytes back whether it waits for every answer or sends everything ahead |
| `Remote.BodyConsumedIff` | src/server/session.cpp:234-268 | A non-empty PUTFILE is framed correctly if and only if it gets past the login, size and name checks; otherwise its whole body is left to be read as requests |
| `Remote.ServesPut` | src/server/session.cpp:234-272 | A request past those checks stores body and tag and consumes exactly its own bytes |
| `Remote.StatReplies` | src/client/remote.cpp:164-191 | Replies to STAT are parsed as meant |
| `Remote.DataReplies` | src/client/remote.cpp:225-256 | Headings of replies with a body are parsed as meant |
| `Remote.EntryRoundTrip` | src/client/remote.cpp:388-403 | A line of a listing gives back size, time and name, without the spaces the name begins with; a name of spaces alone is skipped |
| `Remote.Remote.SendFileBody` | src/client/remote.cpp:106-132 | Sends the whole body, buffer by buffer |
| `Remote.Remote.ReadBody` | src/client/remote.cpp:134-162 | Takes exactly the announced bytes, buffer by buffer |
| `Remote.Remote.PutFile` | src/client/remote.cpp:193-223 | Succeeds if and only if the file system takes the rename; then commits exactly body and tag under the account's name, otherwise nothing; leaves both queues empty |
| `Remote.Remote.Stat` | src/client/remote.cpp:164-191 | Reports absence, or size and tag of the stored file, an empty tag included, and changes nothing |
| `Remote.Remote.GetFile` | src/client/remote.cpp:225-256 | Reports absence or returns exactly the stored bytes, whatever the tag, and changes nothing |
| `Remote.Remote.DelFile` | src/client/remote.cpp:258-280 | Reports whether there was a file, and removes it with its tag |
| `Remote.Remote.ListFiles` | src/client/remote.cpp:361-405 | Returns one entry per stored file in order, as a listing line reads back, and changes nothing |
| `Remote.Remote.PutChunk` | src/client/remote.cpp:282-309 | Succeeds if and only if the file system takes the rename, and then the chunk is stored under its id; otherwise nothing changes |
| `Remote.Remote.GetChunk` | src/client/remote.cpp:311-341 | Reports absence or returns exactly the chunk |
| `Remote.Remote.DelChunk` | src/client/remote.cpp:343-359 | Removes the chunk |
| `Remote.Remote.ConnectFiles` | src/client/remote.cpp:21-86 | For any two credentials without line feeds, empty, with spaces or of any length: succeeds if and only if a user is given, the LOGIN line without carriage returns has at most 4096 bytes, and the two together read as two words that the server verifies for a valid account name; then that account is logged in |
| `Remote.WordsOfLogin` | src/client/remote.cpp:55-57 | A user name and a password that are words are read as exactly these two |
| `Remote.Remote.ConnectChunks` | src/client/remote.cpp:21-86 | For any token without line feeds: succeeds if and only if one is given, the AUTH line fits likewise, and the token reads as the one word that is the server's |
| `Remote.GreetingServed` | src/server/session.cpp:98-114 | A connection that opens with the client's HELLO line is served, and what it is sent begins with the reply that the handshake waits for |
| `Remote.Remote.Greet` | src/client/remote.cpp:32-47 | The client's greeting against the whole connection loop: it is not taken for a web request, its reply is heard, and all that follows is served |
| `Conversation.PutHolds` | src/server/session.cpp:247-266 | A commit moves the store from one map to the map with that entry, other accounts kept; an empty tag and the dash sent for it are the same |
| `Conversation.DeleteHolds` | src/server/session.cpp:298-316 | A removal moves the store to the map without that entry, other accounts kept |
| `Conversation.Perform` | src/client/remote.cpp:164-280 | One request on a live connection gets the answer of the map and leaves the store holding the next map, whatever safe names and tags, or none, are stored |
| `Conversation.Converse` | src/client/remote.cpp:164-405 | For any sequence of valid put, stat, get, delete and list: every answer is the map's, refused puts included, each side reads exactly what the other sent, and no other account is affected |
| `StoreThreads.StepKeeps` | src/server/session.cpp:247-306 | Every step of every thread, faults included, keeps the invariant of the shared store |
| `StoreThreads.EveryInterleavingIsConsistent` | src/server/session.cpp:247-266 | In every interleaving without such faults, each name no thread is in the middle of changing shows the complete body of one PUT with that PUT's tag, or neither file nor tag |
| `StoreThreads.OpenedBody` | src/server/session.cpp:256-266 | Even mid-commit, any file there is, is the whole body of one PUT |
| `StoreThreads.ShownExactly` | src/server/store.cpp:96-106 | Over every run, with tag files that cannot be opened, writes that end early and stops between any two effects: any visible body is the whole body of one PUT, and its tag is that PUT's tag if and only if the whole tag was written after the open emptied the file, or the file was not (or not yet) opened and the tag there before was the same; an empty tag is right from the truncation on |
| `StoreThreads.LookupsAreConsistent` | src/server/store.cpp:80-94 | What STAT answers and GETFILE announces under the lock is what is visible at that moment, faults or not, with the size of one committed PUT, and no commit or deletion is half done meanwhile |
| `StoreThreads.CleanLookups` | src/server/store.cpp:80-94 | In runs without faults it is size and tag of one and the same committed PUT |
| `StoreThreads.VersionCounts` | src/server/session.cpp:256-306 | Over any run, the version of a name stands still if and only if no commit or deletion of it begins |
| `StoreThreads.GetIsExactIff` | src/server/session.cpp:274-296 | Whatever falls between look-up and opening: the announced body is sent if and only if the file is there and begins with it, and the connection drops if and only if there is no file or a shorter one |
| `StoreThreads.GetIsExact` | src/server/session.cpp:274-296 | Along any run that no commit or deletion of the same name disturbs, a GETFILE goes on to send exactly the file it announced |
| `StoreThreads.GetNeverMixes` | src/server/session.cpp:274-296 | In every run, faults included, what is sent is the beginning of the body of one PUT of that name |
| `StoreThreads.OvertakenGet` | src/server/session.cpp:276-291 | A PUT renamed into the gap is what the GETFILE opens, cut to the announced size or failing |
| `StoreThreads.DeletedGet` | src/server/session.cpp:276-306 | A deletion in the gap drops the connection |
| `StoreThreads.GapIsReached` | src/server/session.cpp:247-306 | For any name and any two bodies a run without faults reaches that gap, with a PUT of the other body, or a deletion, holding the lock |
| `StoreThreads.CriticalSectionCommits` | src/server/webui.cpp:284-294 | Rename, truncation and writing of the tag are steps of a fault-free run that together are the commit of the sequential store |
| `StoreThreads.CriticalSectionRemoves` | src/server/webui.cpp:222-228 | The two removals are steps of a fault-free run that together are the removal of the sequential store, and report whether there was a file |
| `StoreThreads.OpenFailureShows` | src/server/store.cpp:96-106 | When the tag file cannot be opened, the new body shows under the tag that was there |
| `StoreThreads.ShortWriteShows` | src/server/store.cpp:96-106 | When the write ends after n bytes, by a failure or a stop, the new body shows under the first n bytes of its tag, none of it for n = 0 |
| `StoreThreads.StopKeeps` | src/server/store.cpp:25-40 | A stop at any moment and the next start, which clears the partial transfers, change nothing an account shows |
| `StoreThreads.EveryTempIsInUse` | src/server/session.cpp:247-262 | Over every run, broken transfers, refused renames and stops included: a temporary file there is, is that of a transfer still under way |
| `StoreThreads.HolderLetsGo` | src/server/session.cpp:256-306 | No deadlock: from any state a run has reached, the thread that holds the lock can go on by itself, without a fault, and lets go within five steps |
| `Hex.ToHex` | src/core/hex.cpp:19-27 | Two lower-case digits per byte |
| `Hex.FromHex` | src/core/hex.cpp:33-45 | The bytes the text stands for, or nothing |
| `Hex.ParsedText` | src/core/hex.cpp:19-45 | Reading undoes printing for every byte string |
| `Hex.TextParsed` | src/core/hex.cpp:33-45 | A text is read if and only if it is an even number of hex digits, and prints back in lower case |
| `Passwd.SplitFields` | src/core/passwd.cpp:21-33 | Splits at every `$`, empty fields included |
| `Passwd.CellsJoin` | src/core/passwd.cpp:21-33 | Splitting inverts joining with `$` |
| `Passwd.ParseVerifier` | src/core/passwd.cpp:41-56 | Accepts exactly four fields: the scheme, 1 to 100000000 iterations, a non-empty hex salt and a 32-byte hex hash |
| `Passwd.HashPassword` | src/core/passwd.cpp:68-79 | Prints iterations, salt and hash under the scheme, or nothing when salt or hash came out too short |
| `Passwd.VerifyPassword` | src/core/passwd.cpp:81-92 | Stretches the attempt with the stored salt and iterations and compares the hex texts |
| `Passwd.ParseFormat` | src/core/passwd.cpp:41-79 | Parsing a verifier gives back its iterations, salt and hash |
| `Passwd.VerifiesExactly` | src/core/passwd.cpp:68-92 | A stored verifier accepts a password if and only if PBKDF2 takes it to the same hash under the stored salt |
| `Passwd.VerifiesIff` | src/core/passwd.cpp:41-92 | Whatever text is stored: a password is accepted if and only if the text parses and PBKDF2 takes the password to the hash there under the salt and iterations there; what parses has four fields, 1 to 100000000 iterations, a salt, and 32 bytes of hash |
| `Users.UserStore.LoadFile` | src/server/users.cpp:73-102 | Memory becomes the parse of the file; a wrong heading or version empties it and fails |
| `Users.UserStore.SaveFile` | src/server/users.cpp:104-138 | The file becomes the printed accounts, each line with the date asked for it, or is left alone |
| `Users.UserStore.Add` | src/server/users.cpp:140-169 | Memory and file both change or neither does, whatever fails |
| `Users.UserStore.SetPassword` | src/server/users.cpp:171-192 | The same for a changed password |
| `Users.UserStore.Remove` | src/server/users.cpp:194-209 | The same for a removed account |
| `Users.OnlyItsOwnAccount` | src/server/users.cpp:140-209 | For every state and call: the verifier of an account there is changes or goes only by SetPassword or Remove of that name, and an account there was not appears only by Add of that valid name |
| `Users.UserStore.Verify` | src/server/users.cpp:211-227 | Reloads when the timestamp differs, then checks; an unknown account never verifies |
| `Users.LoadUndoesSave` | src/server/users.cpp:73-138 | Loading what was saved gives the same accounts back |
| `Users.LoadedAreGood` | src/server/users.cpp:96-101 | Accounts loaded from any file at all can be saved and loaded again |
| `Users.LoadIff` | src/server/users.cpp:73-102 | Over any file: a wrong heading or version fails and leaves no accounts; otherwise the accounts are exactly the valid names on `user` lines of three fields or more, each with the verifier on its last such line |
| `Users.EveryRunStaysInSync` | src/server/users.cpp:140-209 | After any run of calls with arbitrary save failures, memory equals the parse of the file, and each verifier is of the last password set, where a name is added only once, only one that is there is changed or removed, and shorter passwords than 8 bytes are refused |
| `Users.FreshLoadVerifiesLastSet` | src/server/users.cpp:73-227 | After any run from no accounts, a fresh load accepts a password if and only if it is the last one set, by those same rules, for an account there still is |
| `UserCache.CacheAgreesIff` | src/server/users.cpp:63-137 | Over every run, wherever replacements fall: when the remembered timestamp is the file's, the remembered accounts are those of the file now if and only if this process has not filed a save of its own under a later version's timestamp, or the two versions have the same accounts |
| `UserCache.LookupIsCurrentIff` | src/server/users.cpp:63-102 | A look-up answers from a version of the file in place at some moment since it began, with the same exception, exactly |
| `UserCache.OvertakenSave` | src/server/users.cpp:126-137 | Whatever is put in place between a save's rename and its reading of the timestamp, once or more often: the cache that is left agrees with the file if and only if the last of it has the accounts that were saved |
| `UserCache.StaleIsReached` | src/server/users.cpp:126-137 | Two processes that save different accounts are enough to reach a cache that is filed under the file's timestamp and disagrees with it |
| `UserCache.StaleStays` | src/server/users.cpp:63-71 | Look-ups alone never change a cache filed under the file's timestamp, stale or not |
| `UserCache.ReplacementHeals` | src/server/users.cpp:63-102 | The first look-up after the next replacement drops it |
| `Json.Escape` | src/server/http.cpp:176-201 | The loop escapes byte by byte |
| `Json.ReadEscaped` | src/server/http.cpp:176-201 | A string reader after section 7 of RFC 8259 reads every escaped byte string back and stops at its closing quote |
| `Json.JsonField` | src/server/http.cpp:203-235 | Finds the key, the colon, the quote, and collects the value up to 4096 bytes |
| `Json.RequestRecovered` | src/server/http.cpp:203-235 | Each value of a log-in request comes back if and only if it is at most 4096 bytes without control bytes other than tab, line feed and carriage return, even when the user value contains or equals a key |
| `Json.PasswordKey` | src/server/http.cpp:203-209 | The key search can be caught only by a user value that ends in the key, and then still meets the right colon |
| `Text.StrtollPrinted` | src/client/remote.cpp:400 | Printed 64-bit signed numbers are read back |
| `Watch.EntryReadsBack` | src/client/watch.cpp:53-68 | An entry's line is read back as written if and only if its size is below 2^63, its name has a non-space, and the text of its time does not occur in that of its size |
| `Watch.LoadUndoesSave` | src/client/watch.cpp:40-83 | Loading undoes saving for every set of such entries |
| `Watch.LoadIff` | src/client/watch.cpp:40-70 | Over any file: a wrong heading fails; otherwise the entries are those its lines give, the last line of a name counting |
| `Watch.WatchState.LoadFrom` | src/client/watch.cpp:42-70 | Entries become the parse of the file; a wrong heading empties them and fails |
| `Watch.WatchState.Save` | src/client/watch.cpp:72-83 | The text is the heading and one line per entry, in name order |
| `Watch.WatchState.Pass` | src/client/watch.cpp:152-180 | After a scan of a folder: a safe file that was new or changed and has been stored is remembered as it was seen, everything else as before; the count is that of the files stored, and saving is asked for if and only if the entries changed |

## Left out

- TLS, sockets, certificates and the CA: connections are reliable byte queues that may be cut.
- The inside of AES-GCM, PBKDF2, HMAC and SHA-256, and the random source: parameters with the
  hypotheses above.
- Constant-time comparison and the decoy verifier, whose point is timing: equality and `false`.
- Local read and write errors, full disks, permissions and torn writes: only a failing rename, a
  failing or short tag write, a cut connection, a failing save of the account list and crashes
  between effects are steps. A deletion the file system refuses is not.
- A tag write that fails in the sequential session: `StoreThreads.dfy` covers it.
- A plain file that changes or shrinks while it is being sealed.
- HTTP request parsing, routing, browser sessions, the page and its script, and so what happens
  on a connection that `Session.Session.Run` leaves to them. The web page's PUT and DELETE take
  the same steps on the store as a session's, and are covered by those steps.
- Chunks under concurrency: PUTCHUNK, GETCHUNK and DELCHUNK follow the pattern of the file
  commands, without a tag. A web download and GETCHUNK read after the lock like GETFILE.
- Command line, settings, prompts, progress, logging, daemon loops and the stop flag in
  `sync_once`; `reachable` is an input.
- What the watcher's directory iterator yields, and its state file being cut short by a crash while
  saving.
- `Store::init` creating directories, `ensure_account` failing, the token file.
- `verifier_is_stale`, `names`, `empty`, `read_header` and `dedup_tag_for_file`: no property beyond
  their bodies.
- Liveness of `sync`: it does not hold that every manifest eventually goes away (a crash while
  chunks are released can leave too few), nor that the latest version wins, nor that no chunk is
  orphaned, and none of these is claimed.
- Sync: one account and one server address; two clients share the state only through the server,
  the peers and the pending directory.
- StoreThreads.GetIsExact: speaks of what is opened; a connection cut while sending is left out.

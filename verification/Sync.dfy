/** The offline fallback and its forwarding, as a transition system.

    Any number of client processes share one pending directory. An upload
    places shards on peers and then writes a manifest; a sync reads a manifest,
    rebuilds the stream, asks the server, sends, releases the chunks and removes
    the manifest. Every process may stop between any two effects (a crash, an
    error return, a lost reply), peers may answer with anything and may lose
    chunks, and the server's files may be changed by others. */
module Sync {
  import opened Bytes
  import opened Wrappers
  import opened Erasure
  import opened ShardFile
  import opened Recover
  import opened SafeName
  import opened Manifests

  /** A sealed stream on its way to the server, with its deduplication tag. */
  datatype Upload = Upload(name: string, stream: seq<byte>, tag: string)

  /** Where a process is. `made` is the upload whose manifest it is working on. */
  datatype Proc =
    | Placing(made: Upload, next: nat, placed: seq<ShardRef>)
    | Rebuilding(made: Upload, manifest: Manifest)
    | Rebuilt(made: Upload, manifest: Manifest, stream: seq<byte>)
    | Sending(made: Upload, manifest: Manifest, stream: seq<byte>)
    | Replying(made: Upload, manifest: Manifest)
    | Releasing(made: Upload, manifest: Manifest, next: nat)
  {
    predicate Syncing() { !Placing? }
    predicate Forwarded() { Replying? || Releasing? }
  }

  datatype Stored = Stored(stream: seq<byte>, tag: string)

  datatype State = State(
    server: map<string, Stored>,
    accepted: set<Upload>,            // whose stream the server has had since they were recorded
    tagSeen: set<Upload>,             // whose tag a sync has since found the server holding
    tagPut: set<Upload>,              // whose tag the server has had since they were recorded
    held: set<(string, string)>,      // (peer, chunk id)
    pending: map<string, Manifest>,   // the manifests, by file name
    written: map<string, Upload>,     // which upload last wrote a manifest for a name
    recorded: set<Upload>,            // every upload that ever wrote a manifest
    uploads: set<Upload>,             // every fallback upload ever begun
    procs: map<nat, Proc>)

  /** The hash, and every byte string that ever meets it. */
  datatype Env = Env(hash: Hash, seen: set<seq<byte>>, address: string)

  /** No collision among those strings, and a digest is 64 hex digits. */
  ghost predicate GoodEnv(env: Env) {
    CollisionFree(env.hash, env.seen) && Token(env.address)
    && forall x :: x in env.seen ==> IsSafeChunkId(env.hash(x))
  }

  /** An upload whose manifest survives being written and read back. */
  ghost predicate GoodUpload(env: Env, u: Upload) {
    IsSafeName(u.name) && u.name[0] != ' ' && (u.tag == "" || Token(u.tag)) && |u.stream| <= MAX_SIZE
    && forall x: Shard :: ShardOf(x, u.stream) in env.seen
  }

  /** What a manifest file gives when it is read back. */
  function Reread(m: Manifest): Option<Manifest> {
    match Parsed(Unlines(ManifestLines(m))) case Ok(read) => Some(read) case Err(_) => None
  }

  function ChunkId(env: Env, u: Upload, index: int): string
    requires 0 <= index < 4
  {
    env.hash(ShardOf(ShardAt(index), u.stream))
  }

  function MakeManifest(env: Env, u: Upload, placed: seq<ShardRef>): Manifest {
    Manifest(env.address, u.name, |u.stream|, HalfSize(u.stream), u.tag, 2, 2, placed)
  }

  predicate Held(held: set<(string, string)>, ref: ShardRef) {
    (ref.peer, ref.chunkId) in held
  }

  predicate TwoHeld(held: set<(string, string)>, refs: seq<ShardRef>) {
    exists i, j :: 0 <= i < j < |refs| && Held(held, refs[i]) && Held(held, refs[j])
  }

  // ----- steps -----

  datatype Step =
    | StartUpload(pid: nat, upload: Upload)
    | Place(pid: nat, peer: string, kept: bool, acknowledged: bool)
    | WriteManifest(pid: nat)
    | ReadManifest(pid: nat, name: string)
    | Rebuild(pid: nat, fetches: seq<Fetch>, out: seq<byte>)
    | StatSame(pid: nat)
    | StatOther(pid: nat)
    | ServerAccepts(pid: nat)
    | ReplyArrives(pid: nat)
    | ReleaseChunk(pid: nat, reached: bool)
    | RemoveManifest(pid: nat)
    | Stop(pid: nat)
    | OtherPut(name: string, stream: seq<byte>, tag: string)
    | OtherDelete(name: string)
    | PeerLoses(peer: string, id: string)

  predicate At(s: State, pid: nat) {
    pid in s.procs
  }

  /** Fresh salts: no chunk of a new upload is a chunk of an earlier one. */
  ghost predicate FreshChunks(env: Env, s: State, u: Upload) {
    u !in s.uploads
    && forall v, i, j :: v in s.uploads && 0 <= i < 4 && 0 <= j < 4 ==> ChunkId(env, u, i) != ChunkId(env, v, j)
  }

  /** `out` is what rebuilding from these answers returns. */
  ghost predicate RebuildsTo(env: Env, m: Manifest, fetches: seq<Fetch>, out: seq<byte>) {
    |fetches| == |m.shards|
    && (forall i :: 0 <= i < |fetches| && fetches[i].Fetched? ==> fetches[i].body in env.seen)
    && var got := Collect(m.shards, fetches, |m.shards|, env.hash);
       RebuildOk(got, m.shardSize) && exists pair :: JoinedFrom(got.Offered(), m.shardSize, pair, m.streamSize, out)
  }

  ghost predicate Enabled(env: Env, s: State, step: Step) {
    match step
    case StartUpload(pid, u) =>
      !At(s, pid) && FreshChunks(env, s, u) && GoodUpload(env, u)
    case Place(pid, peer, kept, acknowledged) =>
      At(s, pid) && Token(peer) && s.procs[pid].Placing? && s.procs[pid].next < 4 && (acknowledged ==> kept)
    case WriteManifest(pid) =>
      // at least two of the shards placed, and (the hypothesis on peers) still kept
      At(s, pid) && s.procs[pid].Placing? && s.procs[pid].next == 4
      && |s.procs[pid].placed| >= 2 && TwoHeld(s.held, s.procs[pid].placed)
    case ReadManifest(pid, name) => !At(s, pid) && name in s.pending && name in s.written
    case Rebuild(pid, fetches, out) =>
      At(s, pid) && s.procs[pid].Rebuilding? && RebuildsTo(env, s.procs[pid].manifest, fetches, out)
    case StatSame(pid) =>
      At(s, pid) && s.procs[pid].Rebuilt?
      && var m := s.procs[pid].manifest;
         m.name in s.server && m.dedupTag != "" && s.server[m.name].tag == m.dedupTag
    case StatOther(pid) => At(s, pid) && s.procs[pid].Rebuilt?
    case ServerAccepts(pid) => At(s, pid) && s.procs[pid].Sending?
    case ReplyArrives(pid) => At(s, pid) && s.procs[pid].Replying?
    case ReleaseChunk(pid, reached) =>
      At(s, pid) && s.procs[pid].Releasing? && s.procs[pid].next < |s.procs[pid].manifest.shards|
    case RemoveManifest(pid) =>
      At(s, pid) && s.procs[pid].Releasing? && s.procs[pid].next == |s.procs[pid].manifest.shards|
    case Stop(pid) => At(s, pid)
    case OtherPut(_, _, _) => true
    case OtherDelete(_) => true
    case PeerLoses(peer, id) =>
      // the hypothesis on peers: two chunks of every pending file survive
      forall name :: name in s.pending && TwoHeld(s.held, s.pending[name].shards)
        ==> TwoHeld(s.held - {(peer, id)}, s.pending[name].shards)
  }

  function ByStream(us: set<Upload>, name: string, file: Stored): set<Upload> {
    set u | u in us && u.name == name && u.stream == file.stream
  }

  /** An empty tag identifies nothing. */
  function ByTag(us: set<Upload>, name: string, file: Stored): set<Upload> {
    set u | u in us && u.name == name && u.tag == file.tag && u.tag != ""
  }

  /** Notes which of these uploads the server now has under that name. */
  function Noted(s: State, name: string, us: set<Upload>): State {
    if name in s.server then
      s.(accepted := s.accepted + ByStream(us, name, s.server[name]), tagPut := s.tagPut + ByTag(us, name, s.server[name]))
    else s
  }

  function Put(s: State, name: string, file: Stored): State {
    Noted(s.(server := s.server[name := file]), name, s.recorded)
  }

  function Apply(env: Env, s: State, step: Step): State {
    match step
    case StartUpload(pid, u) => s.(uploads := s.uploads + {u}, procs := s.procs[pid := Placing(u, 0, [])])
    case Place(pid, peer, kept, acknowledged) =>
      if pid in s.procs && s.procs[pid].Placing? && s.procs[pid].next < 4 then
        var p := s.procs[pid];
        var ref := ShardRef(p.next, ChunkId(env, p.made, p.next), peer);
        s.(held := if kept then s.held + {(peer, ref.chunkId)} else s.held,
           procs := s.procs[pid := p.(next := p.next + 1, placed := if acknowledged then p.placed + [ref] else p.placed)])
      else s
    case WriteManifest(pid) =>
      if pid in s.procs && s.procs[pid].Placing? then
        var p := s.procs[pid];
        Noted(s.(pending := s.pending[p.made.name := MakeManifest(env, p.made, p.placed)], written := s.written[p.made.name := p.made],
                 recorded := s.recorded + {p.made}, procs := s.procs - {pid}), p.made.name, {p.made})
      else s
    case ReadManifest(pid, name) =>
      if name in s.pending && name in s.written && Reread(s.pending[name]).Some? then
        s.(procs := s.procs[pid := Rebuilding(s.written[name], Reread(s.pending[name]).value)])
      else s
    case Rebuild(pid, _, out) =>
      if pid in s.procs && s.procs[pid].Rebuilding? then
        s.(procs := s.procs[pid := Rebuilt(s.procs[pid].made, s.procs[pid].manifest, out)])
      else s
    case StatSame(pid) =>
      if pid in s.procs && s.procs[pid].Rebuilt? then
        var p := s.procs[pid];
        s.(tagSeen := s.tagSeen + {p.made}, procs := s.procs[pid := Releasing(p.made, p.manifest, 0)])
      else s
    case StatOther(pid) =>
      if pid in s.procs && s.procs[pid].Rebuilt? then
        var p := s.procs[pid];
        s.(procs := s.procs[pid := Sending(p.made, p.manifest, p.stream)])
      else s
    case ServerAccepts(pid) =>
      if pid in s.procs && s.procs[pid].Sending? then
        var p := s.procs[pid];
        Put(s.(procs := s.procs[pid := Replying(p.made, p.manifest)]), p.manifest.name, Stored(p.stream, p.manifest.dedupTag))
      else s
    case ReplyArrives(pid) =>
      if pid in s.procs && s.procs[pid].Replying? then
        var p := s.procs[pid];
        s.(procs := s.procs[pid := Releasing(p.made, p.manifest, 0)])
      else s
    case ReleaseChunk(pid, reached) =>
      if pid in s.procs && s.procs[pid].Releasing? && s.procs[pid].next < |s.procs[pid].manifest.shards| then
        var p := s.procs[pid];
        var ref := p.manifest.shards[p.next];
        s.(held := if reached then s.held - {(ref.peer, ref.chunkId)} else s.held,
           procs := s.procs[pid := p.(next := p.next + 1)])
      else s
    case RemoveManifest(pid) =>
      if pid in s.procs && s.procs[pid].Releasing? then
        s.(pending := s.pending - {s.procs[pid].manifest.name}, procs := s.procs - {pid})
      else s
    case Stop(pid) => s.(procs := s.procs - {pid})
    case OtherPut(name, stream, tag) => Put(s, name, Stored(stream, tag))
    case OtherDelete(name) => s.(server := s.server - {name})
    case PeerLoses(peer, id) => s.(held := s.held - {(peer, id)})
  }

  /** No manifest is written for a name while a sync of that name is under way. */
  ghost predicate NoOverlap(s: State, step: Step) {
    step.WriteManifest? && step.pid in s.procs ==>
      forall q :: q in s.procs && s.procs[q].Syncing() ==> s.procs[q].manifest.name != s.procs[step.pid].made.name
  }

  const INITIAL: State := State(map[], {}, {}, {}, {}, map[], map[], {}, {}, map[])

  /** The steps, each enabled when taken, lead from s to t; in a clean run no
      upload overlaps a sync of its name. */
  ghost predicate Runs(env: Env, clean: bool, s: State, steps: seq<Step>, t: State)
    decreases |steps|
  {
    if steps == [] then s == t
    else
      Enabled(env, s, steps[0]) && (clean ==> NoOverlap(s, steps[0]))
      && Runs(env, clean, Apply(env, s, steps[0]), steps[1..], t)
  }

  ghost predicate Reaches(env: Env, clean: bool, s: State, t: State) {
    exists steps :: Runs(env, clean, s, steps, t)
  }

  lemma {:induction false} ReachSame(env: Env, clean: bool, s: State)
    ensures Reaches(env, clean, s, s)
  {
    assert Runs(env, clean, s, [], s);
  }

  lemma {:induction false} ReachOne(env: Env, clean: bool, s: State, step: Step)
    requires Enabled(env, s, step) && (clean ==> NoOverlap(s, step))
    ensures Reaches(env, clean, s, Apply(env, s, step))
  {
    hide Enabled, Apply, NoOverlap;
    assert [step][1..] == [];
    assert Runs(env, clean, s, [step], Apply(env, s, step));
  }

  lemma {:induction false} RunsAppend(env: Env, clean: bool, s: State, a: seq<Step>, t: State, b: seq<Step>, u: State)
    requires Runs(env, clean, s, a, t) && Runs(env, clean, t, b, u)
    ensures Runs(env, clean, s, a + b, u)
    decreases |a|
  {
    hide Enabled, Apply, NoOverlap;
    if a == [] {
      assert a + b == b;
    } else {
      RunsAppend(env, clean, Apply(env, s, a[0]), a[1..], t, b, u);
      assert (a + b)[1..] == a[1..] + b;
    }
  }

  lemma {:induction false} ReachTrans(env: Env, clean: bool, s: State, t: State, u: State)
    requires Reaches(env, clean, s, t) && Reaches(env, clean, t, u)
    ensures Reaches(env, clean, s, u)
  {
    hide Runs;
    var a :| Runs(env, clean, s, a, t);
    var b :| Runs(env, clean, t, b, u);
    RunsAppend(env, clean, s, a, t, b, u);
  }

  // ----- durability -----

  /** The uploads whose content the server has had, by its tag, since they were
      recorded: those a sync saw there or, counting all, those there at any moment. */
  function Tags(s: State, all: bool): set<Upload> {
    if all then s.tagSeen + s.tagPut else s.tagSeen
  }

  /** Two chunks are still out there under a manifest, or the server has had the
      stream (or the same content, by its tag) under that name since it was recorded. */
  ghost predicate DurableUpload(s: State, u: Upload, all: bool) {
    (u.name in s.pending && u.name in s.written && s.written[u.name] == u && TwoHeld(s.held, s.pending[u.name].shards))
    || u in s.accepted
    || u in Tags(s, all)
  }

  ghost predicate Durable(s: State, all: bool) {
    forall name :: name in s.written ==> s.written[name].name == name && DurableUpload(s, s.written[name], all)
  }

  /** m records shards of u, each once. */
  ghost predicate ManifestOf(env: Env, u: Upload, m: Manifest) {
    m == MakeManifest(env, u, m.shards) && RefsOf(env, u, m.shards) && Reread(m) == Some(m)
  }

  ghost predicate RefsOf(env: Env, u: Upload, refs: seq<ShardRef>) {
    (forall i :: 0 <= i < |refs| ==> InRange(refs[i]) && WellFormedShard(refs[i]) && refs[i].chunkId == ChunkId(env, u, refs[i].index))
    && (forall i, j :: 0 <= i < j < |refs| ==> refs[i].index < refs[j].index)
  }

  /** What a process knows about the upload whose manifest it works on. */
  ghost predicate GoodProc(env: Env, s: State, p: Proc) {
    p.made in s.uploads
    && (p.Placing? ==> p.next <= 4 && RefsOf(env, p.made, p.placed) && forall i :: 0 <= i < |p.placed| ==> p.placed[i].index < p.next)
    && (p.Syncing() ==> p.made in s.recorded && ManifestOf(env, p.made, p.manifest))
    && (p.Rebuilt? || p.Sending? ==> p.stream == p.made.stream)
    && (p.Forwarded() ==> p.made in s.accepted || p.made in s.tagSeen)
  }

  ghost predicate SeenUploads(env: Env, uploads: set<Upload>) {
    (forall u :: u in uploads ==> GoodUpload(env, u))
    && (forall u, v, i, j :: u in uploads && v in uploads && u != v && 0 <= i < 4 && 0 <= j < 4 ==>
          ChunkId(env, u, i) != ChunkId(env, v, j))
  }

  /** Every manifest is one of the upload that last wrote under its name. */
  ghost predicate TrueManifests(env: Env, s: State) {
    (forall name :: name in s.written ==> s.written[name] in s.uploads * s.recorded && s.written[name].name == name)
    && (forall name :: name in s.pending ==> name in s.written && ManifestOf(env, s.written[name], s.pending[name]))
  }

  /** Holds in every run. */
  ghost predicate Inv(env: Env, s: State) {
    GoodEnv(env) && SeenUploads(env, s.uploads) && TrueManifests(env, s)
    && forall pid :: pid in s.procs ==> GoodProc(env, s, s.procs[pid])
  }

  /** A sync at work on a name that is still pending works on its latest manifest. */
  ghost predicate UpToDate(s: State) {
    forall pid :: pid in s.procs && s.procs[pid].Syncing() ==>
      var u := s.procs[pid].made; u.name in s.pending ==> u.name in s.written && s.written[u.name] == u
  }

  lemma {:induction false} InitialInv(env: Env)
    requires GoodEnv(env)
    ensures Inv(env, INITIAL) && UpToDate(INITIAL) && forall all :: Durable(INITIAL, all)
  {
  }

  /** Rebuilding from a manifest of u returns u's stream, whatever peers answer. */
  lemma {:induction false} RebuildsOwnStream(env: Env, s: State, u: Upload, m: Manifest, fetches: seq<Fetch>, out: seq<byte>)
    requires Inv(env, s) && u in s.uploads && ManifestOf(env, u, m) && RebuildsTo(env, m, fetches, out)
    ensures out == u.stream
  {
    assert Genuine(m.shards, u.stream, env.hash);
    assert AllSeen(m.shards, fetches, u.stream, env.seen);
    RebuildCorrect(m.shards, fetches, u.stream, env.hash, env.seen);
  }

  // ----- the invariant, step by step -----

  predicate Grows(s: State, s': State) {
    s.uploads <= s'.uploads && s.recorded <= s'.recorded && s.accepted <= s'.accepted && s.tagSeen <= s'.tagSeen
  }

  lemma {:induction false} ProcKeeps(env: Env, s: State, s': State, p: Proc)
    requires GoodProc(env, s, p) && Grows(s, s')
    ensures GoodProc(env, s', p)
  {
    hide ManifestOf, RefsOf;
  }

  /** Nothing is forgotten, so only what a step changes needs another look. */
  lemma {:induction false} InvFrom(env: Env, s: State, s': State)
    requires Inv(env, s) && Grows(s, s') && SeenUploads(env, s'.uploads)
    requires (s'.written == s.written && s'.pending.Items <= s.pending.Items) || TrueManifests(env, s')
    requires forall pid :: pid in s'.procs ==> (pid in s.procs && s'.procs[pid] == s.procs[pid]) || GoodProc(env, s', s'.procs[pid])
    ensures Inv(env, s')
  {
    hide GoodEnv, SeenUploads, ManifestOf, GoodProc;
    forall pid | pid in s'.procs ensures GoodProc(env, s', s'.procs[pid]) {
      if pid in s.procs && s'.procs[pid] == s.procs[pid] {
        ProcKeeps(env, s, s', s.procs[pid]);
      }
    }
    if s'.written == s.written && s'.pending.Items <= s.pending.Items {
      forall name | name in s'.pending ensures name in s.pending && s'.pending[name] == s.pending[name] {
        assert (name, s'.pending[name]) in s'.pending.Items;
      }
    }
  }

  lemma {:induction false} GoodOf(env: Env, uploads: set<Upload>, u: Upload)
    requires SeenUploads(env, uploads) && u in uploads
    ensures GoodUpload(env, u)
  {
  }

  /** Reading back the manifest of a good upload returns it. */
  lemma {:induction false} RereadsItself(env: Env, u: Upload, placed: seq<ShardRef>)
    requires GoodEnv(env) && GoodUpload(env, u) && RefsOf(env, u, placed)
    ensures ManifestOf(env, u, MakeManifest(env, u, placed))
  {
    var m := MakeManifest(env, u, placed);
    assert WellFormed(m);
    ReadUndoesWrite(m);
  }

  lemma {:induction false} PlacedRef(env: Env, u: Upload, next: nat, placed: seq<ShardRef>, peer: string)
    requires GoodEnv(env) && GoodUpload(env, u) && RefsOf(env, u, placed) && next < 4 && Token(peer)
    requires forall i :: 0 <= i < |placed| ==> placed[i].index < next
    ensures RefsOf(env, u, placed + [ShardRef(next, ChunkId(env, u, next), peer)])
  {
    assert ShardOf(ShardAt(next), u.stream) in env.seen;
  }

  lemma {:induction false} InvStart(env: Env, s: State, step: Step)
    requires Inv(env, s) && Enabled(env, s, step) && step.StartUpload?
    ensures Inv(env, Apply(env, s, step))
  {
    hide GoodEnv, GoodUpload, ManifestOf, TrueManifests, ChunkId;
    InvFrom(env, s, Apply(env, s, step));
  }

  lemma {:induction false} InvPlace(env: Env, s: State, step: Step)
    requires Inv(env, s) && Enabled(env, s, step) && step.Place?
    ensures Inv(env, Apply(env, s, step))
  {
    hide GoodEnv, GoodUpload, Reread, MakeManifest, ManifestOf, TrueManifests, ChunkId, SeenUploads, RefsOf;
    var p, s' := s.procs[step.pid], Apply(env, s, step);
    GoodOf(env, s.uploads, p.made);
    PlacedRef(env, p.made, p.next, p.placed, step.peer);
    assert GoodProc(env, s', s'.procs[step.pid]);
    InvFrom(env, s, s');
  }

  lemma {:induction false} InvWrite(env: Env, s: State, step: Step)
    requires Inv(env, s) && Enabled(env, s, step) && step.WriteManifest?
    ensures Inv(env, Apply(env, s, step))
  {
    hide GoodEnv, GoodUpload, SeenUploads, TwoHeld, RefsOf, ManifestOf, MakeManifest, ByStream, ByTag, GoodProc;
    var p, s' := s.procs[step.pid], Apply(env, s, step);
    assert RefsOf(env, p.made, p.placed) && p.made in s.uploads by { PlacingGood(env, s, step.pid); }
    GoodOf(env, s.uploads, p.made);
    RereadsItself(env, p.made, p.placed);
    assert TrueManifests(env, s');
    InvFrom(env, s, s');
  }

  lemma {:induction false} PlacingGood(env: Env, s: State, pid: nat)
    requires Inv(env, s) && pid in s.procs && s.procs[pid].Placing?
    ensures RefsOf(env, s.procs[pid].made, s.procs[pid].placed) && s.procs[pid].made in s.uploads
  {
    hide GoodEnv, SeenUploads, TrueManifests, RefsOf;
  }

  lemma {:induction false} SyncingGood(env: Env, s: State, pid: nat)
    requires Inv(env, s) && pid in s.procs && s.procs[pid].Syncing()
    ensures GoodProc(env, s, s.procs[pid]) && ManifestOf(env, s.procs[pid].made, s.procs[pid].manifest)
    ensures SeenUploads(env, s.uploads)
  {
    hide GoodEnv, SeenUploads, TrueManifests, ManifestOf;
  }

  lemma {:induction false} InvRead(env: Env, s: State, step: Step)
    requires Inv(env, s) && Enabled(env, s, step) && step.ReadManifest?
    ensures Inv(env, Apply(env, s, step))
  {
    hide GoodEnv, GoodUpload, SeenUploads, RefsOf, MakeManifest, Reread;
    var s' := Apply(env, s, step);
    assert step.pid in s'.procs ==> GoodProc(env, s', s'.procs[step.pid]);
    InvFrom(env, s, s');
  }

  lemma {:induction false} InvRebuild(env: Env, s: State, step: Step)
    requires Inv(env, s) && Enabled(env, s, step) && step.Rebuild?
    ensures Inv(env, Apply(env, s, step))
  {
    hide Inv, RebuildsTo, RefsOf, ManifestOf, SeenUploads;
    var p, s' := s.procs[step.pid], Apply(env, s, step);
    SyncingGood(env, s, step.pid);
    RebuildsOwnStream(env, s, p.made, p.manifest, step.fetches, step.out);
    assert GoodProc(env, s', s'.procs[step.pid]);
    InvFrom(env, s, s');
  }

  lemma {:induction false} InvForward(env: Env, s: State, step: Step)
    requires Inv(env, s) && Enabled(env, s, step)
    requires step.StatSame? || step.StatOther? || step.ReplyArrives? || step.ReleaseChunk? || step.RemoveManifest?
    ensures Inv(env, Apply(env, s, step))
  {
    hide Inv, RefsOf, ManifestOf, SeenUploads;
    var s' := Apply(env, s, step);
    SyncingGood(env, s, step.pid);
    assert step.pid in s'.procs ==> GoodProc(env, s', s'.procs[step.pid]);
    InvFrom(env, s, s');
  }

  lemma {:induction false} InvSend(env: Env, s: State, step: Step)
    requires Inv(env, s) && Enabled(env, s, step) && step.ServerAccepts?
    ensures Inv(env, Apply(env, s, step))
  {
    hide Inv, RefsOf, ManifestOf, SeenUploads, ByTag;
    var p, s' := s.procs[step.pid], Apply(env, s, step);
    SyncingGood(env, s, step.pid);
    SyncsByName(env, s, step.pid);
    assert p.made in ByStream(s.recorded, p.manifest.name, Stored(p.stream, p.manifest.dedupTag));
    assert GoodProc(env, s', s'.procs[step.pid]);
    InvFrom(env, s, s');
  }

  lemma {:induction false} SyncsByName(env: Env, s: State, pid: nat)
    requires Inv(env, s) && pid in s.procs && s.procs[pid].Syncing()
    ensures s.procs[pid].manifest.name == s.procs[pid].made.name && s.procs[pid].manifest.dedupTag == s.procs[pid].made.tag
  {
    hide GoodEnv, SeenUploads, TrueManifests, RefsOf, Reread;
  }

  lemma {:induction false} InvOther(env: Env, s: State, step: Step)
    requires Inv(env, s) && Enabled(env, s, step) && (step.Stop? || step.PeerLoses? || step.OtherPut? || step.OtherDelete?)
    ensures Inv(env, Apply(env, s, step))
  {
    hide GoodEnv, SeenUploads, TrueManifests, GoodProc, ByStream, ByTag, TwoHeld;
    InvFrom(env, s, Apply(env, s, step));
  }

  lemma {:induction false} StepInv(env: Env, s: State, step: Step)
    requires Inv(env, s) && Enabled(env, s, step)
    ensures Inv(env, Apply(env, s, step))
  {
    hide Inv, Enabled, Apply;
    match step
    case StartUpload(_, _) => InvStart(env, s, step);
    case Place(_, _, _, _) => InvPlace(env, s, step);
    case WriteManifest(_) => InvWrite(env, s, step);
    case ReadManifest(_, _) => InvRead(env, s, step);
    case Rebuild(_, _, _) => InvRebuild(env, s, step);
    case Stop(_) => InvOther(env, s, step);
    case PeerLoses(_, _) => InvOther(env, s, step);
    case ServerAccepts(_) => InvSend(env, s, step);
    case OtherPut(_, _, _) => InvOther(env, s, step);
    case OtherDelete(_) => InvOther(env, s, step);
    case _ => InvForward(env, s, step);
  }

  // ----- durability, step by step -----

  /** A sync releases chunks of the upload it has forwarded, and of no other. */
  lemma {:induction false} ReleaseKeepsOthers(env: Env, s: State, pid: nat, u: Upload)
    requires Inv(env, s) && pid in s.procs && s.procs[pid].Releasing? && s.procs[pid].next < |s.procs[pid].manifest.shards|
    requires u in s.uploads && u != s.procs[pid].made && u.name in s.pending && ManifestOf(env, u, s.pending[u.name])
    ensures var ref := s.procs[pid].manifest.shards[s.procs[pid].next];
      TwoHeld(s.held, s.pending[u.name].shards) ==> TwoHeld(s.held - {(ref.peer, ref.chunkId)}, s.pending[u.name].shards)
  {
    hide GoodEnv, GoodUpload, WellFormedShard, Reread;
    var ref := s.procs[pid].manifest.shards[s.procs[pid].next];
    forall i | 0 <= i < |s.pending[u.name].shards| && Held(s.held, s.pending[u.name].shards[i])
      ensures Held(s.held - {(ref.peer, ref.chunkId)}, s.pending[u.name].shards[i])
    {
      assert s.pending[u.name].shards[i].chunkId != ref.chunkId;
    }
  }

  lemma {:induction false} HeldGrows(held: set<(string, string)>, more: set<(string, string)>, refs: seq<ShardRef>)
    requires TwoHeld(held, refs) && held <= more
    ensures TwoHeld(more, refs)
  {
    var i, j :| 0 <= i < j < |refs| && Held(held, refs[i]) && Held(held, refs[j]);
    assert Held(more, refs[i]) && Held(more, refs[j]);
  }

  /** A sync removes a manifest that is no longer the one it has forwarded, and the
      server has had nothing of the newer upload since that was recorded. */
  predicate Loses(s: State, all: bool, step: Step) {
    step.RemoveManifest? && step.pid in s.procs && s.procs[step.pid].Releasing?
    && var p := s.procs[step.pid];
       p.made.name in s.written
       && var newer := s.written[p.made.name];
          newer != p.made && newer !in s.accepted && newer !in Tags(s, all)
  }

  /** What keeps an upload durable: the server's part only grows, and the chunks of
      its manifest, if that was what made it durable, are still held. */
  lemma {:induction false} StaysDurable(s: State, s': State, u: Upload, all: bool)
    requires DurableUpload(s, u, all)
    requires s.accepted <= s'.accepted && s.tagSeen <= s'.tagSeen && s.tagPut <= s'.tagPut
    requires u.name in s.pending && u.name in s.written && s.written[u.name] == u && TwoHeld(s.held, s.pending[u.name].shards) ==>
      u.name in s'.pending && u.name in s'.written && s'.written[u.name] == u && TwoHeld(s'.held, s'.pending[u.name].shards)
    ensures DurableUpload(s', u, all)
  {
    hide TwoHeld;
  }

  predicate TouchesManifests(step: Step) {
    step.WriteManifest? || step.RemoveManifest?
  }

  predicate TouchesChunks(step: Step) {
    step.Place? || step.ReleaseChunk? || step.PeerLoses?
  }

  lemma {:induction false} ServerGrows(env: Env, s: State, step: Step)
    ensures var s' := Apply(env, s, step); s.accepted <= s'.accepted && s.tagSeen <= s'.tagSeen && s.tagPut <= s'.tagPut
    ensures !TouchesManifests(step) ==> Apply(env, s, step).pending == s.pending && Apply(env, s, step).written == s.written
    ensures !TouchesChunks(step) ==> Apply(env, s, step).held == s.held
  {
    hide ByStream, ByTag, MakeManifest, Reread, ChunkId;
  }

  lemma {:induction false} StepDurable(env: Env, s: State, all: bool, step: Step, name: string)
    requires Inv(env, s) && Durable(s, all) && Enabled(env, s, step) && !Loses(s, all, step)
    requires name in Apply(env, s, step).written
    ensures DurableUpload(Apply(env, s, step), Apply(env, s, step).written[name], all)
  {
    hide Apply, Inv, Enabled, Loses, DurableUpload;
    if step.WriteManifest? {
      WriteDurable(env, s, all, step, name);
    } else if step.RemoveManifest? {
      RemoveDurable(env, s, all, step, name);
    } else if TouchesChunks(step) {
      ChunksDurable(env, s, all, step, name);
    } else {
      ServerGrows(env, s, step);
      StaysDurable(s, Apply(env, s, step), s.written[name], all);
    }
  }

  lemma {:induction false} WriteDurable(env: Env, s: State, all: bool, step: Step, name: string)
    requires Durable(s, all) && Enabled(env, s, step) && step.WriteManifest? && name in Apply(env, s, step).written
    ensures DurableUpload(Apply(env, s, step), Apply(env, s, step).written[name], all)
  {
    hide DurableUpload, TwoHeld, ByStream, ByTag;
    var u, s' := s.procs[step.pid].made, Apply(env, s, step);
    if name == u.name {
      assert DurableUpload(s', u, all) by { DurableByChunks(s', u, all); }
    } else {
      StaysDurable(s, s', s.written[name], all);
    }
  }

  lemma {:induction false} DurableByChunks(s: State, u: Upload, all: bool)
    requires u.name in s.pending && u.name in s.written && s.written[u.name] == u && TwoHeld(s.held, s.pending[u.name].shards)
    ensures DurableUpload(s, u, all)
  {
  }

  lemma {:induction false} RemoveDurable(env: Env, s: State, all: bool, step: Step, name: string)
    requires Inv(env, s) && Durable(s, all) && Enabled(env, s, step) && !Loses(s, all, step)
    requires step.RemoveManifest? && name in Apply(env, s, step).written
    ensures DurableUpload(Apply(env, s, step), Apply(env, s, step).written[name], all)
  {
    hide Inv, TwoHeld, ManifestOf, RefsOf;
    SyncingGood(env, s, step.pid);
    SyncsByName(env, s, step.pid);
    assert DurableUpload(s, s.written[name], all);
  }

  lemma {:induction false} ChunksDurable(env: Env, s: State, all: bool, step: Step, name: string)
    requires Inv(env, s) && Durable(s, all) && Enabled(env, s, step) && TouchesChunks(step)
    requires name in Apply(env, s, step).written
    ensures DurableUpload(Apply(env, s, step), Apply(env, s, step).written[name], all)
  {
    hide Apply, Inv, Enabled, TwoHeld;
    ServerGrows(env, s, step);
    assert DurableUpload(s, s.written[name], all);
    if name in s.pending && TwoHeld(s.held, s.pending[name].shards) {
      ChunksStay(env, s, step, name);
    }
  }

  lemma {:induction false} ChunksStay(env: Env, s: State, step: Step, name: string)
    requires Inv(env, s) && Enabled(env, s, step) && TouchesChunks(step)
    requires name in s.written && name in s.pending && TwoHeld(s.held, s.pending[name].shards)
    ensures TwoHeld(Apply(env, s, step).held, s.pending[name].shards) || s.written[name] in s.accepted || s.written[name] in s.tagSeen
  {
    hide GoodEnv, SeenUploads, RefsOf, Reread, TwoHeld;
    var t, u := Apply(env, s, step), s.written[name];
    if step.ReleaseChunk? && u != s.procs[step.pid].made {
      ReleaseKeepsOthers(env, s, step.pid, u);
    }
    if step.Place? {
      HeldGrows(s.held, t.held, s.pending[name].shards);
    }
  }

  lemma {:induction false} LossIsLoss(env: Env, s: State, all: bool, step: Step)
    requires Inv(env, s) && Loses(s, all, step)
    ensures !Durable(Apply(env, s, step), all)
  {
    hide GoodEnv, Reread, SeenUploads, RefsOf, RebuildsTo, FreshChunks, TwoHeld, GoodUpload;
    var p := s.procs[step.pid];
    SyncsByName(env, s, step.pid);
    assert !DurableUpload(Apply(env, s, step), s.written[p.made.name], all);
  }

  /** The one step that can lose a file, exactly: every other step of every process
      keeps every recorded upload durable, whatever overlaps. */
  lemma {:induction false} StepDurableIff(env: Env, s: State, all: bool, step: Step)
    requires Inv(env, s) && Durable(s, all) && Enabled(env, s, step)
    ensures Durable(Apply(env, s, step), all) <==> !Loses(s, all, step)
  {
    hide Inv, Enabled, Apply, DurableUpload, Loses;
    if Loses(s, all, step) {
      LossIsLoss(env, s, all, step);
    } else {
      var next := Apply(env, s, step);
      StepInv(env, s, step);
      forall name | name in next.written ensures next.written[name].name == name && DurableUpload(next, next.written[name], all) {
        StepDurable(env, s, all, step, name);
        WrittenByName(env, next, name);
      }
    }
  }

  ghost predicate NeverLoses(env: Env, s: State, all: bool, steps: seq<Step>)
    decreases |steps|
  {
    steps == [] || (!Loses(s, all, steps[0]) && NeverLoses(env, Apply(env, s, steps[0]), all, steps[1..]))
  }

  ghost predicate DurableThroughout(env: Env, s: State, all: bool, steps: seq<Step>)
    decreases |steps|
  {
    Durable(s, all) && (steps != [] ==> DurableThroughout(env, Apply(env, s, steps[0]), all, steps[1..]))
  }

  /** Over any run at all, overlaps included: every recorded upload stays durable
      throughout exactly when no step of the run is such a removal. */
  lemma {:induction false} RunDurableIff(env: Env, s: State, all: bool, steps: seq<Step>, t: State)
    requires Inv(env, s) && Durable(s, all) && Runs(env, false, s, steps, t)
    ensures DurableThroughout(env, s, all, steps) <==> NeverLoses(env, s, all, steps)
    decreases |steps|
  {
    hide Inv, Enabled, Apply, Durable, Loses, NoOverlap;
    if steps != [] {
      var next := Apply(env, s, steps[0]);
      StepDurableIff(env, s, all, steps[0]);
      StepInv(env, s, steps[0]);
      if Durable(next, all) {
        RunDurableIff(env, next, all, steps[1..], t);
      }
    }
  }

  lemma {:induction false} UpToDateNeverLoses(env: Env, s: State, all: bool, step: Step)
    requires Inv(env, s) && Durable(s, all) && UpToDate(s)
    ensures !Loses(s, all, step)
  {
    hide GoodEnv, Reread, SeenUploads, RefsOf, TwoHeld, GoodUpload, ManifestOf;
    if step.RemoveManifest? && step.pid in s.procs && s.procs[step.pid].made.name in s.written {
      assert DurableUpload(s, s.written[s.procs[step.pid].made.name], all);
    }
  }

  lemma {:induction false} StepUpToDate(env: Env, s: State, step: Step)
    requires Inv(env, s) && UpToDate(s) && Enabled(env, s, step) && NoOverlap(s, step)
    ensures UpToDate(Apply(env, s, step))
  {
    hide GoodEnv, Reread, SeenUploads, RefsOf, RebuildsTo, FreshChunks, TwoHeld, GoodUpload, GoodProc, ManifestOf, MakeManifest;
    forall pid | pid in s.procs && s.procs[pid].Syncing()
      ensures s.procs[pid].manifest.name == s.procs[pid].made.name
    {
      SyncsByName(env, s, pid);
    }
  }

  /** Whatever overlaps: manifests tell the truth, and a sync only ever sends
      the stream that the upload behind its manifest had sealed. */
  lemma {:induction false} RunInv(env: Env, clean: bool, s: State, steps: seq<Step>, t: State)
    requires Inv(env, s) && Runs(env, clean, s, steps, t)
    ensures Inv(env, t)
    decreases |steps|
  {
    hide Inv, Enabled, Apply, NoOverlap;
    if steps != [] {
      StepInv(env, s, steps[0]);
      RunInv(env, clean, Apply(env, s, steps[0]), steps[1..], t);
    }
  }

  lemma {:induction false} CleanRunDurable(env: Env, s: State, all: bool, steps: seq<Step>, t: State)
    requires Inv(env, s) && UpToDate(s) && Durable(s, all) && Runs(env, true, s, steps, t)
    ensures Inv(env, t) && UpToDate(t) && Durable(t, all)
    decreases |steps|
  {
    hide Inv, Enabled, Apply, UpToDate, Durable, NoOverlap, Loses;
    if steps != [] {
      var next := Apply(env, s, steps[0]);
      StepInv(env, s, steps[0]);
      StepUpToDate(env, s, steps[0]);
      UpToDateNeverLoses(env, s, all, steps[0]);
      StepDurableIff(env, s, all, steps[0]);
      CleanRunDurable(env, next, all, steps[1..], t);
    }
  }

  lemma {:induction false} WrittenByName(env: Env, s: State, name: string)
    requires Inv(env, s) && name in s.written
    ensures s.written[name].name == name
  {
    hide GoodEnv, Reread, SeenUploads, RefsOf, GoodProc, ManifestOf;
  }

  /** Durability over every run: through crashes, lost replies, retries and lying
      peers, the upload that last recorded a manifest for a name is either still
      recoverable from two chunks, or has reached the server. */
  lemma {:induction false} EveryRunIsDurable(env: Env, t: State)
    requires GoodEnv(env) && Reaches(env, true, INITIAL, t)
    ensures Durable(t, false)
  {
    hide Inv, UpToDate, Runs, GoodEnv;
    InitialInv(env);
    var steps :| Runs(env, true, INITIAL, steps, t);
    CleanRunDurable(env, INITIAL, false, steps, t);
  }

  // ----- what `accepted` and `tagPut` stand for -----

  /** The server has, at this moment, the stream (or the non-empty tag) of an upload
      that has been recorded. */
  predicate Shows(s: State, u: Upload, byTag: bool) {
    u in s.recorded && u.name in s.server
    && if byTag then u.tag != "" && s.server[u.name].tag == u.tag else s.server[u.name].stream == u.stream
  }

  ghost predicate EverShows(env: Env, s: State, steps: seq<Step>, u: Upload, byTag: bool)
    decreases |steps|
  {
    Shows(s, u, byTag) || (steps != [] && EverShows(env, Apply(env, s, steps[0]), steps[1..], u, byTag))
  }

  function Had(s: State, byTag: bool): set<Upload> {
    if byTag then s.tagPut else s.accepted
  }

  lemma {:induction false} HadStep(env: Env, s: State, step: Step, u: Upload, byTag: bool)
    requires Enabled(env, s, step) && (Shows(s, u, byTag) ==> u in Had(s, byTag))
    ensures var s' := Apply(env, s, step); u in Had(s', byTag) <==> u in Had(s, byTag) || Shows(s', u, byTag)
  {
    hide MakeManifest, Reread, ChunkId, TwoHeld, RebuildsTo, FreshChunks, GoodUpload;
  }

  lemma {:induction false} HadOver(env: Env, clean: bool, s: State, steps: seq<Step>, t: State, u: Upload, byTag: bool)
    requires Runs(env, clean, s, steps, t) && (Shows(s, u, byTag) ==> u in Had(s, byTag))
    ensures u in Had(t, byTag) <==> u in Had(s, byTag) || EverShows(env, s, steps, u, byTag)
    decreases |steps|
  {
    hide Enabled, Apply, Shows, Had, NoOverlap;
    if steps != [] {
      HadStep(env, s, steps[0], u, byTag);
      HadOver(env, clean, Apply(env, s, steps[0]), steps[1..], t, u, byTag);
    }
  }

  /** What a sync finds is there at that moment. */
  lemma {:induction false} SeenIsThere(env: Env, s: State, step: Step)
    requires Inv(env, s) && Enabled(env, s, step)
    requires s.tagSeen <= s.tagPut && forall u :: Shows(s, u, true) ==> u in s.tagPut
    ensures var s' := Apply(env, s, step); s'.tagSeen <= s'.tagPut && forall u :: Shows(s', u, true) ==> u in s'.tagPut
  {
    hide Inv, Enabled, Apply, Shows;
    var s' := Apply(env, s, step);
    forall u | Shows(s', u, true) ensures u in s'.tagPut {
      HadStep(env, s, step, u, true);
    }
    ServerGrows(env, s, step);
    forall u | u in s'.tagSeen && u !in s.tagSeen ensures Shows(s, u, true) {
      NewlySeen(env, s, step, u);
    }
  }

  lemma {:induction false} NewlySeen(env: Env, s: State, step: Step, u: Upload)
    requires Inv(env, s) && Enabled(env, s, step) && u in Apply(env, s, step).tagSeen && u !in s.tagSeen
    ensures Shows(s, u, true)
  {
    hide Inv, ByStream, ByTag, MakeManifest, Reread, ChunkId, TwoHeld, RebuildsTo, FreshChunks, GoodUpload, ManifestOf;
    assert step.StatSame?;
    SyncingGood(env, s, step.pid);
    SyncsByName(env, s, step.pid);
  }

  lemma {:induction false} RunSeen(env: Env, clean: bool, s: State, steps: seq<Step>, t: State)
    requires Inv(env, s) && Runs(env, clean, s, steps, t)
    requires s.tagSeen <= s.tagPut && forall u :: Shows(s, u, true) ==> u in s.tagPut
    ensures t.tagSeen <= t.tagPut
    decreases |steps|
  {
    hide Inv, Enabled, Apply, Shows, NoOverlap;
    if steps != [] {
      StepInv(env, s, steps[0]);
      SeenIsThere(env, s, steps[0]);
      RunSeen(env, clean, Apply(env, s, steps[0]), steps[1..], t);
    }
  }

  /** Over every run from the start, an upload counts as accepted exactly when at some
      moment since it was recorded the server had its stream under its name, and as
      held by its tag exactly when the server then had its non-empty tag. */
  lemma {:induction false} HadExactly(env: Env, clean: bool, steps: seq<Step>, t: State, u: Upload)
    requires GoodEnv(env) && Runs(env, clean, INITIAL, steps, t)
    ensures u in t.accepted <==> EverShows(env, INITIAL, steps, u, false)
    ensures u in Tags(t, true) <==> EverShows(env, INITIAL, steps, u, true)
  {
    hide Runs, EverShows, Inv, GoodEnv;
    HadOver(env, clean, INITIAL, steps, t, u, false);
    HadOver(env, clean, INITIAL, steps, t, u, true);
    InitialInv(env);
    RunSeen(env, clean, INITIAL, steps, t);
  }

  /** The bytes of every stream about to be sent are those that were sealed. */
  lemma {:induction false} EveryRunForwardsTruth(env: Env, t: State, pid: nat)
    requires GoodEnv(env) && Reaches(env, false, INITIAL, t) && pid in t.procs && t.procs[pid].Sending?
    ensures var p := t.procs[pid];
      p.made in t.uploads && p.stream == p.made.stream && p.manifest.name == p.made.name && p.manifest.dedupTag == p.made.tag
  {
    InitialInv(env);
    var steps :| Runs(env, false, INITIAL, steps, t);
    RunInv(env, false, INITIAL, steps, t);
    hide GoodEnv, SeenUploads, RefsOf, Reread, Runs;
  }

  // ----- why the overlap must be excluded -----

  function TwoRefs(env: Env, u: Upload, peer: string): seq<ShardRef> {
    [ShardRef(0, ChunkId(env, u, 0), peer), ShardRef(1, ChunkId(env, u, 1), peer)]
  }

  /** The state after an undisturbed upload that placed d0 and d1 only. */
  function Uploaded(env: Env, s: State, u: Upload, peer: string): State {
    Noted(s.(uploads := s.uploads + {u}, held := s.held + {(peer, ChunkId(env, u, 0))} + {(peer, ChunkId(env, u, 1))},
             pending := s.pending[u.name := MakeManifest(env, u, TwoRefs(env, u, peer))], written := s.written[u.name := u],
             recorded := s.recorded + {u}), u.name, {u})
  }

  lemma {:induction false} UploadReaches(env: Env, s: State, pid: nat, u: Upload, peer: string)
    requires !At(s, pid) && GoodUpload(env, u) && Token(peer)
    requires FreshChunks(env, s, u)
    ensures Reaches(env, false, s, Uploaded(env, s, u, peer))
  {
    hide GoodUpload, FreshChunks, Token, Runs, ByStream, ByTag;
    var s1 := Apply(env, s, StartUpload(pid, u));
    ReachOne(env, false, s, StartUpload(pid, u));
    var s2 := Apply(env, s1, Place(pid, peer, true, true));
    ReachOne(env, false, s1, Place(pid, peer, true, true));
    var s3 := Apply(env, s2, Place(pid, peer, true, true));
    ReachOne(env, false, s2, Place(pid, peer, true, true));
    var s4 := Apply(env, s3, Place(pid, peer, false, false));
    ReachOne(env, false, s3, Place(pid, peer, false, false));
    var s5 := Apply(env, s4, Place(pid, peer, false, false));
    ReachOne(env, false, s4, Place(pid, peer, false, false));
    var p := s5.procs[pid];
    assert p == Placing(u, 4, TwoRefs(env, u, peer));
    assert Held(s5.held, p.placed[0]) && Held(s5.held, p.placed[1]);
    ReachOne(env, false, s5, WriteManifest(pid));
    assert Apply(env, s5, WriteManifest(pid)).procs == s.procs;
    assert Apply(env, s5, WriteManifest(pid)) == Uploaded(env, s, u, peer);
    ReachTrans(env, false, s, s1, s2);
    ReachTrans(env, false, s, s2, s3);
    ReachTrans(env, false, s, s3, s4);
    ReachTrans(env, false, s, s4, s5);
    ReachTrans(env, false, s, s5, Uploaded(env, s, u, peer));
  }

  lemma {:induction false} HonestRebuild(env: Env, u: Upload, peer: string)
    requires GoodEnv(env) && GoodUpload(env, u)
    ensures RebuildsTo(env, MakeManifest(env, u, TwoRefs(env, u, peer)),
      [Fetched(ShardOf(D0, u.stream)), Fetched(ShardOf(D1, u.stream))], u.stream)
  {
    var d0, d1 := ShardOf(D0, u.stream), ShardOf(D1, u.stream);
    var refs, fetches := TwoRefs(env, u, peer), [Fetched(d0), Fetched(d1)];
    assert Collect(refs, fetches, 1, env.hash) == Holdings([Some(d0), None, None, None], [true, false, false, false], 1);
    var got := Collect(refs, fetches, 2, env.hash);
    assert got == Holdings([Some(d0), Some(d1), None, None], [true, true, false, false], 2);
    var present := Present(got.Offered(), HalfSize(u.stream));
    assert present[0] && present[1];
    JoinUndoesSplit(ShardPair(D0, D1), u.stream);
    assert JoinedFrom(got.Offered(), HalfSize(u.stream), ShardPair(D0, D1), |u.stream|, u.stream);
  }

  /** The state in which a sync has forwarded u and is about to remove its manifest. */
  function AlmostSynced(s: State, pid: nat, u: Upload, m: Manifest): State {
    Put(s.(procs := s.procs[pid := Releasing(u, m, 2)]), u.name, Stored(u.stream, u.tag))
  }

  lemma {:induction false} SyncForwards(env: Env, s: State, pid: nat, u: Upload, m: Manifest)
    requires pid in s.procs && s.procs[pid] == Rebuilt(u, m, u.stream) && m.name == u.name && m.dedupTag == u.tag && |m.shards| == 2
    ensures Reaches(env, false, s, AlmostSynced(s, pid, u, m))
  {
    hide Runs, ByStream, ByTag;
    var s3 := Apply(env, s, StatOther(pid));
    ReachOne(env, false, s, StatOther(pid));
    var s4 := Apply(env, s3, ServerAccepts(pid));
    ReachOne(env, false, s3, ServerAccepts(pid));
    var s5 := Apply(env, s4, ReplyArrives(pid));
    ReachOne(env, false, s4, ReplyArrives(pid));
    ReachTrans(env, false, s, s3, s4);
    ReachTrans(env, false, s, s4, s5);
    assert s5 == AlmostSynced(s, pid, u, m).(procs := s.procs[pid := Releasing(u, m, 0)]);
    SyncReleases(env, s5, pid, u, m);
    assert s5.(procs := s5.procs[pid := Releasing(u, m, 2)]) == AlmostSynced(s, pid, u, m);
    ReachTrans(env, false, s, s5, AlmostSynced(s, pid, u, m));
  }

  lemma {:induction false} SyncReleases(env: Env, s: State, pid: nat, u: Upload, m: Manifest)
    requires pid in s.procs && s.procs[pid] == Releasing(u, m, 0) && |m.shards| == 2
    ensures Reaches(env, false, s, s.(procs := s.procs[pid := Releasing(u, m, 2)]))
  {
    hide Runs;
    var s1 := Apply(env, s, ReleaseChunk(pid, false));
    ReachOne(env, false, s, ReleaseChunk(pid, false));
    ReachOne(env, false, s1, ReleaseChunk(pid, false));
    assert Apply(env, s1, ReleaseChunk(pid, false)) == s.(procs := s.procs[pid := Releasing(u, m, 2)]);
    ReachTrans(env, false, s, s1, s.(procs := s.procs[pid := Releasing(u, m, 2)]));
  }

  lemma {:induction false} SyncReaches(env: Env, s: State, pid: nat, u: Upload, peer: string)
    requires GoodEnv(env) && GoodUpload(env, u) && !At(s, pid)
    requires u.name in s.written && s.written[u.name] == u && u.name in s.pending
    requires s.pending[u.name] == MakeManifest(env, u, TwoRefs(env, u, peer)) && Reread(s.pending[u.name]) == Some(s.pending[u.name])
    ensures Reaches(env, false, s, AlmostSynced(s, pid, u, s.pending[u.name]))
  {
    hide GoodEnv, GoodUpload, Reread, RebuildsTo, Runs;
    HonestRebuild(env, u, peer);
    var m := s.pending[u.name];
    var r := Rebuild(pid, [Fetched(ShardOf(D0, u.stream)), Fetched(ShardOf(D1, u.stream))], u.stream);
    var s1 := Apply(env, s, ReadManifest(pid, u.name));
    ReachOne(env, false, s, ReadManifest(pid, u.name));
    var s2 := Apply(env, s1, r);
    ReachOne(env, false, s1, r);
    SyncForwards(env, s2, pid, u, m);
    assert AlmostSynced(s2, pid, u, m) == AlmostSynced(s, pid, u, m);
    ReachTrans(env, false, s, s1, s2);
    ReachTrans(env, false, s, s2, AlmostSynced(s, pid, u, m));
  }

  lemma {:induction false} TwoRefsReread(env: Env, u: Upload, peer: string)
    requires GoodEnv(env) && GoodUpload(env, u) && Token(peer)
    ensures var m := MakeManifest(env, u, TwoRefs(env, u, peer)); Reread(m) == Some(m)
  {
    hide GoodEnv, GoodUpload, Token, Reread;
    PlacedRef(env, u, 0, [], peer);
    assert [] + [ShardRef(0, ChunkId(env, u, 0), peer)] == [ShardRef(0, ChunkId(env, u, 0), peer)];
    PlacedRef(env, u, 1, [ShardRef(0, ChunkId(env, u, 0), peer)], peer);
    assert [ShardRef(0, ChunkId(env, u, 0), peer)] + [ShardRef(1, ChunkId(env, u, 1), peer)] == TwoRefs(env, u, peer);
    RereadsItself(env, u, TwoRefs(env, u, peer));
  }

  /** Without that exclusion a file can be lost. While a sync of u is about to
      remove its manifest, an upload v of other content under the same name replaces
      it; the sync then removes the new manifest, and v is neither recorded nor on the
      server. */
  lemma {:induction false} OverlapLosesFile(env: Env, u: Upload, v: Upload, peer: string)
    requires GoodEnv(env) && Token(peer) && GoodUpload(env, u) && GoodUpload(env, v)
    requires u.name == v.name && u.stream != v.stream && (v.tag != u.tag || v.tag == "")
    requires forall i, j :: 0 <= i < 4 && 0 <= j < 4 ==> ChunkId(env, u, i) != ChunkId(env, v, j)
    ensures exists t :: Reaches(env, false, INITIAL, t) && !Durable(t, true)
  {
    hide GoodEnv, GoodUpload, Reread, Token, Runs, ChunkId;
    var s1 := Uploaded(env, INITIAL, u, peer);
    UploadReaches(env, INITIAL, 0, u, peer);
    TwoRefsReread(env, u, peer);
    SyncReaches(env, s1, 1, u, peer);
    var s2 := AlmostSynced(s1, 1, u, s1.pending[u.name]);
    ReachTrans(env, false, INITIAL, s1, s2);
    UploadReaches(env, s2, 2, v, peer);
    var s3 := Uploaded(env, s2, v, peer);
    ReachTrans(env, false, INITIAL, s2, s3);
    ReachOne(env, false, s3, RemoveManifest(1));
    var t := Apply(env, s3, RemoveManifest(1));
    ReachTrans(env, false, INITIAL, s3, t);
    assert t.written[v.name] == v && v.name !in t.pending && v !in t.accepted && v !in Tags(t, true);
    assert !DurableUpload(t, v, true);
  }
}

/** The client's own routines, effect by effect, over the state the transition
    system describes: every effect they have is one of its steps. */
module Client {
  import opened Bytes
  import opened ShardFile
  import opened Recover
  import opened Manifests
  import opened Sync

  /** How the outside world behaves during one forwarding attempt. */
  datatype Luck = Luck(fetch: nat -> Fetch, connects: bool, statReplies: bool, bodyArrives: bool, replyArrives: bool,
                       reached: nat -> bool)

  /** How a peer behaves when a shard is offered to it. */
  datatype Offer = Offer(kept: bool, acknowledged: bool)

  datatype SyncResult = SyncResult(synced: nat, waiting: nat, failed: nat)

  class World {
    var s: State
    const env: Env

    constructor (env: Env)
      ensures this.env == env && s == INITIAL
    {
      this.env := env;
      s := INITIAL;
    }

    /** One effect on the outside world. */
    method Take(step: Step)
      requires Enabled(env, s, step) && NoOverlap(s, step)
      modifies this
      ensures s == Apply(env, old(s), step)
    {
      s := Apply(env, s, step);
    }
  }

  lemma {:induction false} Extend(env: Env, s0: State, s: State, step: Step)
    requires Reaches(env, true, s0, s) && Enabled(env, s, step) && NoOverlap(s, step)
    ensures Reaches(env, true, s0, Apply(env, s, step))
  {
    hide Enabled, NoOverlap, Apply, Runs;
    ReachOne(env, true, s, step);
    ReachTrans(env, true, s0, s, Apply(env, s, step));
  }

  /** The first k chunks of those whose peers can be reached. */
  function Released(refs: seq<ShardRef>, luck: Luck, k: nat): set<(string, string)>
    requires k <= |refs|
  {
    set i | 0 <= i < k && luck.reached(i) :: (refs[i].peer, refs[i].chunkId)
  }

  /** Asks each peer to delete its chunk; one that cannot be reached is skipped. */
  method ReleaseShards(w: World, pid: nat, luck: Luck)
    requires pid in w.s.procs && w.s.procs[pid].Releasing? && w.s.procs[pid].next == 0
    modifies w
    ensures Reaches(w.env, true, old(w.s), w.s)
    ensures var o, p := old(w.s), old(w.s).procs[pid];
      var refs := p.manifest.shards;
      w.s == o.(held := o.held - Released(refs, luck, |refs|), procs := o.procs[pid := p.(next := |refs|)])
  {
    hide Runs, Enabled;
    ghost var s0 := w.s;
    ReachSame(w.env, true, s0);
    var p := w.s.procs[pid];
    var refs := p.manifest.shards;
    for i := 0 to |refs|
      invariant Reaches(w.env, true, s0, w.s)
      invariant w.s == s0.(held := s0.held - Released(refs, luck, i), procs := s0.procs[pid := p.(next := i)])
    {
      CanRelease(w.env, w.s, pid, luck.reached(i));
      Extend(w.env, s0, w.s, ReleaseChunk(pid, luck.reached(i)));
      w.Take(ReleaseChunk(pid, luck.reached(i)));
      OneMoreReleased(s0.held, refs, luck, i);
    }
  }

  lemma {:induction false} OneMoreReleased(held: set<(string, string)>, refs: seq<ShardRef>, luck: Luck, k: nat)
    requires k < |refs|
    ensures held - Released(refs, luck, k + 1)
      == if luck.reached(k) then held - Released(refs, luck, k) - {(refs[k].peer, refs[k].chunkId)} else held - Released(refs, luck, k)
  {
    assert Released(refs, luck, k + 1)
      == if luck.reached(k) then Released(refs, luck, k) + {(refs[k].peer, refs[k].chunkId)} else Released(refs, luck, k);
  }

  lemma {:induction false} CanRelease(env: Env, s: State, pid: nat, reached: bool)
    requires pid in s.procs && s.procs[pid].Releasing? && s.procs[pid].next < |s.procs[pid].manifest.shards|
    ensures Enabled(env, s, ReleaseChunk(pid, reached)) && NoOverlap(s, ReleaseChunk(pid, reached))
  {
  }

  // ----- forwarding one pending file -----

  ghost predicate AnswersSeen(env: Env, luck: Luck) {
    forall i :: luck.fetch(i).Fetched? ==> luck.fetch(i).body in env.seen
  }

  function Answers(luck: Luck, n: nat): (f: seq<Fetch>)
    ensures |f| == n
  {
    seq(n, i requires 0 <= i < n => luck.fetch(i))
  }

  predicate SameTag(s: State, m: Manifest, luck: Luck) {
    luck.statReplies && m.name in s.server && m.dedupTag != "" && s.server[m.name].tag == m.dedupTag
  }

  predicate Rebuildable(env: Env, m: Manifest, luck: Luck) {
    RebuildOk(Collect(m.shards, Answers(luck, |m.shards|), |m.shards|, env.hash), m.shardSize)
  }

  /** The server's files once an attempt is over: a body that has arrived is stored,
      whether or not the reply gets back. */
  function Sent(s: State, m: Manifest, stream: seq<byte>, luck: Luck): map<string, Stored> {
    if !SameTag(s, m, luck) && luck.bodyArrives then s.server[m.name := Stored(stream, m.dedupTag)] else s.server
  }

  /** The whole of what forwarding needs from the outside. */
  predicate Succeeds(env: Env, s: State, m: Manifest, luck: Luck) {
    Rebuildable(env, m, luck) && luck.connects && (SameTag(s, m, luck) || (luck.bodyArrives && luck.replyArrives))
  }

  lemma {:induction false} CanRead(env: Env, s: State, pid: nat, name: string)
    requires Inv(env, s) && pid !in s.procs && name in s.pending
    ensures Enabled(env, s, ReadManifest(pid, name)) && NoOverlap(s, ReadManifest(pid, name))
    ensures Apply(env, s, ReadManifest(pid, name)) == s.(procs := s.procs[pid := Rebuilding(s.written[name], s.pending[name])])
  {
  }

  lemma {:induction false} CanRebuild(env: Env, s: State, pid: nat, luck: Luck, out: seq<byte>)
    requires pid in s.procs && s.procs[pid].Rebuilding? && AnswersSeen(env, luck)
    requires var m := s.procs[pid].manifest;
      var got := Collect(m.shards, Answers(luck, |m.shards|), |m.shards|, env.hash);
      RebuildOk(got, m.shardSize) && exists pair :: JoinedFrom(got.Offered(), m.shardSize, pair, m.streamSize, out)
    ensures var p := s.procs[pid];
      var step := Rebuild(pid, Answers(luck, |p.manifest.shards|), out);
      Enabled(env, s, step) && NoOverlap(s, step) && RebuildsTo(env, p.manifest, Answers(luck, |p.manifest.shards|), out)
      && Apply(env, s, step) == s.(procs := s.procs[pid := Rebuilt(p.made, p.manifest, out)])
  {
    hide Collect, RebuildOk, JoinedFrom;
  }

  lemma {:induction false} CanForward(env: Env, s: State, step: Step)
    requires step.StatSame? || step.StatOther? || step.ServerAccepts? || step.ReplyArrives? || step.Stop? || step.RemoveManifest?
    requires step.pid in s.procs
    requires var p := s.procs[step.pid];
      match step
      case StatSame(_) => p.Rebuilt? && p.manifest.name in s.server && p.manifest.dedupTag != "" && s.server[p.manifest.name].tag == p.manifest.dedupTag
      case StatOther(_) => p.Rebuilt?
      case ServerAccepts(_) => p.Sending?
      case ReplyArrives(_) => p.Replying?
      case RemoveManifest(_) => p.Releasing? && p.next == |p.manifest.shards|
      case _ => true
    ensures Enabled(env, s, step) && NoOverlap(s, step)
    ensures step.Stop? ==> Apply(env, s, step) == s.(procs := s.procs - {step.pid})
    ensures step.RemoveManifest? ==>
      Apply(env, s, step) == s.(pending := s.pending - {s.procs[step.pid].manifest.name}, procs := s.procs - {step.pid})
  {
  }

  /** One step of a run that began in s0. */
  method Advance(w: World, ghost s0: State, step: Step)
    requires Reaches(w.env, true, s0, w.s) && Enabled(w.env, w.s, step) && NoOverlap(w.s, step)
    modifies w
    ensures Reaches(w.env, true, s0, w.s) && w.s == Apply(w.env, old(w.s), step)
  {
    hide Enabled, NoOverlap, Runs, Apply;
    Extend(w.env, s0, w.s, step);
    w.Take(step);
  }

  /** Asks the server what it holds and sends the stream unless that is the same. */
  method Deliver(w: World, ghost s0: State, pid: nat, luck: Luck) returns (ok: bool)
    requires Reaches(w.env, true, s0, w.s) && pid in w.s.procs && w.s.procs[pid].Rebuilt?
    modifies w
    ensures Reaches(w.env, true, s0, w.s)
    ensures var o, p := old(w.s), old(w.s).procs[pid];
      ok == (SameTag(o, p.manifest, luck) || (luck.bodyArrives && luck.replyArrives))
      && w.s.pending == o.pending && w.s.written == o.written && w.s.uploads == o.uploads && w.s.held == o.held
      && w.s.procs == (if ok then o.procs[pid := Releasing(p.made, p.manifest, 0)] else o.procs - {pid})
      && o.accepted <= w.s.accepted && o.tagSeen <= w.s.tagSeen
      && w.s.server == Sent(o, p.manifest, p.stream, luck)
      && (ok ==> (p.made in o.recorded && p.made.name == p.manifest.name && p.made.stream == p.stream ==> p.made in w.s.accepted) || p.made in w.s.tagSeen)
  {
    hide Enabled, NoOverlap, Runs;
    ghost var o := w.s;
    var p := w.s.procs[pid];
    if SameTag(w.s, p.manifest, luck) {
      CanForward(w.env, w.s, StatSame(pid));
      Advance(w, s0, StatSame(pid));
      return true;
    }
    CanForward(w.env, w.s, StatOther(pid));
    Advance(w, s0, StatOther(pid));
    if luck.bodyArrives {
      CanForward(w.env, w.s, ServerAccepts(pid));
      Advance(w, s0, ServerAccepts(pid));
      if luck.replyArrives {
        CanForward(w.env, w.s, ReplyArrives(pid));
        Advance(w, s0, ReplyArrives(pid));
        assert w.s.procs == o.procs[pid := Releasing(p.made, p.manifest, 0)];
        return true;
      }
    }
    CanForward(w.env, w.s, Stop(pid));
    Advance(w, s0, Stop(pid));
    assert w.s.procs == o.procs - {pid};
    return false;
  }

  predicate HasArrived(s: State, name: string, u: Upload) {
    u.name == name && (u in s.accepted || u in s.tagSeen)
  }

  lemma {:induction false} RebuildsSame(env: Env, s: State, name: string, fetches: seq<Fetch>, out: seq<byte>)
    requires Inv(env, s) && name in s.pending
    requires |fetches| == |s.pending[name].shards|
    requires RebuildsTo(env, s.pending[name], fetches, out)
    ensures out == s.written[name].stream
  {
    RebuildsOwnStream(env, s, s.written[name], s.pending[name], fetches, out);
  }

  lemma {:induction false} ManifestNames(env: Env, s: State, name: string)
    requires Inv(env, s) && name in s.pending
    ensures name in s.written && s.pending[name].name == name && s.pending[name].dedupTag == s.written[name].tag
    ensures s.written[name] in s.recorded && s.written[name].name == name
  {
    hide GoodEnv, SeenUploads, GoodProc, RefsOf, Reread;
  }

  lemma {:induction false} ReachInv(env: Env, s: State, t: State)
    requires Inv(env, s) && Reaches(env, true, s, t)
    ensures Inv(env, t)
  {
    hide Inv, Runs;
    var steps :| Runs(env, true, s, steps, t);
    RunInv(env, true, s, steps, t);
  }

  /** The process ends with nothing but its own progress lost. */
  method GiveUp(w: World, ghost s0: State, pid: nat)
    requires Inv(w.env, s0) && Reaches(w.env, true, s0, w.s) && pid in w.s.procs
    modifies w
    ensures Reaches(w.env, true, s0, w.s) && Inv(w.env, w.s)
    ensures w.s == old(w.s).(procs := old(w.s).procs - {pid})
  {
    hide Inv, Enabled, NoOverlap, Runs;
    CanForward(w.env, w.s, Stop(pid));
    Advance(w, s0, Stop(pid));
    ReachInv(w.env, s0, w.s);
  }

  /** What an attempt on `name` leaves on the server. */
  function Forwarded(env: Env, s: State, name: string, luck: Luck): map<string, Stored> {
    if name in s.pending && name in s.written && luck.connects && Rebuildable(env, s.pending[name], luck)
    then Sent(s, s.pending[name], s.written[name].stream, luck)
    else s.server
  }

  /** Reads the manifest and rebuilds its stream, or gives up with nothing changed. */
  method ReadAndRebuild(w: World, pid: nat, name: string, luck: Luck) returns (rebuilt: bool)
    requires Inv(w.env, w.s) && pid !in w.s.procs && AnswersSeen(w.env, luck) && name in w.s.pending && name in w.s.written
    modifies w
    ensures Reaches(w.env, true, old(w.s), w.s)
    ensures rebuilt <==> Rebuildable(w.env, old(w.s).pending[name], luck)
    ensures var u, m := old(w.s).written[name], old(w.s).pending[name];
      m.name == u.name == name
      && w.s == if rebuilt then old(w.s).(procs := old(w.s).procs[pid := Rebuilt(u, m, u.stream)]) else old(w.s)
    ensures var u, m := old(w.s).written[name], old(w.s).pending[name]; u in old(w.s).recorded && m.dedupTag == u.tag
  {
    hide Inv, Enabled, NoOverlap, Runs, Reaches, Apply, Collect, RebuildOk, JoinedFrom, AnswersSeen, RebuildsTo;
    ghost var s0 := w.s;
    ReachSame(w.env, true, s0);
    ManifestNames(w.env, s0, name);
    CanRead(w.env, w.s, pid, name);
    Advance(w, s0, ReadManifest(pid, name));
    var m := w.s.procs[pid].manifest;
    var answers := Answers(luck, |m.shards|);
    var stream;
    rebuilt, stream := RebuildStream(m.shards, answers, m.shardSize, m.streamSize, w.env.hash);
    if !rebuilt {
      GiveUp(w, s0, pid);
      assert w.s.procs == s0.procs;
      return false;
    }
    CanRebuild(w.env, w.s, pid, luck, stream);
    RebuildsSame(w.env, s0, name, answers, stream);
    Advance(w, s0, Rebuild(pid, answers, stream));
  }

  /** Rebuild, ask, send, release, and only then forget: a failed attempt deletes
      nothing, and a successful one means the server has the file. */
  method SyncOne(w: World, pid: nat, name: string, luck: Luck) returns (ok: bool)
    requires Inv(w.env, w.s) && pid !in w.s.procs && AnswersSeen(w.env, luck)
    requires name in w.s.pending ==> name in w.s.written
    modifies w
    ensures Reaches(w.env, true, old(w.s), w.s) && Inv(w.env, w.s)
    ensures w.s.procs == old(w.s).procs && w.s.written == old(w.s).written && w.s.uploads == old(w.s).uploads
    ensures ok <==> name in old(w.s).pending && Succeeds(w.env, old(w.s), old(w.s).pending[name], luck)
    ensures ok ==> w.s.pending == old(w.s).pending - {name} && HasArrived(w.s, name, old(w.s).written[name])
    ensures ok ==> var refs := old(w.s).pending[name].shards; w.s.held == old(w.s).held - Released(refs, luck, |refs|)
    ensures !ok ==> w.s.pending == old(w.s).pending && w.s.held == old(w.s).held
    ensures w.s.server == Forwarded(w.env, old(w.s), name, luck)
    ensures old(w.s).accepted <= w.s.accepted && old(w.s).tagSeen <= w.s.tagSeen
  {
    hide Inv, Enabled, NoOverlap, Runs, Reaches, Apply, AnswersSeen, Released, Rebuildable;
    ghost var s0 := w.s;
    ReachSame(w.env, true, s0);
    if name !in w.s.pending {
      return false;
    }
    var rebuilt := ReadAndRebuild(w, pid, name, luck);
    if !rebuilt {
      ReachInv(w.env, s0, w.s);
      return false;
    }
    if !luck.connects {
      GiveUp(w, s0, pid);
      assert w.s.procs == s0.procs;
      return false;
    }
    ok := Deliver(w, s0, pid, luck);
    if ok {
      ghost var s1 := w.s;
      ReleaseShards(w, pid, luck);
      ReachTrans(w.env, true, s0, s1, w.s);
      CanForward(w.env, w.s, RemoveManifest(pid));
      Advance(w, s0, RemoveManifest(pid));
      assert w.s.procs == s0.procs;
    }
    ReachInv(w.env, s0, w.s);
  }

  // ----- falling back to peers -----

  lemma {:induction false} CanStart(env: Env, s: State, pid: nat, u: Upload)
    requires pid !in s.procs && FreshChunks(env, s, u) && GoodUpload(env, u)
    ensures Enabled(env, s, StartUpload(pid, u)) && NoOverlap(s, StartUpload(pid, u))
    ensures Apply(env, s, StartUpload(pid, u)) == s.(uploads := s.uploads + {u}, procs := s.procs[pid := Placing(u, 0, [])])
  {
  }

  lemma {:induction false} CanPlace(env: Env, s: State, pid: nat, peer: string, offer: Offer, placed: seq<ShardRef>)
    requires pid in s.procs && s.procs[pid].Placing? && s.procs[pid].next < 4 && Token(peer) && (offer.acknowledged ==> offer.kept)
    requires s.procs[pid].placed == placed && AllHeld(s.held, placed)
    ensures var step := Place(pid, peer, offer.kept, offer.acknowledged);
      var p := s.procs[pid];
      var ref := ShardRef(p.next, ChunkId(env, p.made, p.next), peer);
      var t := Apply(env, s, step);
      var more := if offer.acknowledged then placed + [ref] else placed;
      Enabled(env, s, step) && NoOverlap(s, step)
      && t.held == (if offer.kept then s.held + {(peer, ref.chunkId)} else s.held) && AllHeld(t.held, more)
      && t == s.(held := t.held, procs := s.procs[pid := Placing(p.made, p.next + 1, more)])
  {
  }

  predicate AllHeld(held: set<(string, string)>, refs: seq<ShardRef>) {
    forall i :: 0 <= i < |refs| ==> Held(held, refs[i])
  }

  lemma {:induction false} CanWrite(env: Env, s: State, pid: nat, u: Upload, placed: seq<ShardRef>)
    requires pid in s.procs && s.procs[pid] == Placing(u, 4, placed) && |placed| >= 2 && AllHeld(s.held, placed)
    requires forall q :: q in s.procs && s.procs[q].Syncing() ==> s.procs[q].manifest.name != u.name
    ensures Enabled(env, s, WriteManifest(pid)) && NoOverlap(s, WriteManifest(pid)) && TwoHeld(s.held, placed)
    ensures var t := Apply(env, s, WriteManifest(pid));
      t.pending == s.pending[u.name := MakeManifest(env, u, placed)] && t.written == s.written[u.name := u]
      && t.procs == s.procs - {pid} && t.server == s.server && t.held == s.held && DurableUpload(t, u, false)
  {
    hide ByStream, ByTag;
    assert Held(s.held, placed[0]) && Held(s.held, placed[1]);
  }

  function Acknowledged(offers: seq<Offer>): (n: nat) {
    if offers == [] then 0 else Acknowledged(offers[..|offers| - 1]) + One(offers[|offers| - 1].acknowledged)
  }

  /** The references to the first k shards, those acknowledged, in order. */
  function AcknowledgedRefs(env: Env, u: Upload, peers: seq<string>, offers: seq<Offer>, k: nat): (refs: seq<ShardRef>)
    requires k <= 4 && |peers| == |offers| == 4
    ensures |refs| == Acknowledged(offers[..k])
  {
    if k == 0 then []
    else
      assert offers[..k][..k - 1] == offers[..k - 1];
      AcknowledgedRefs(env, u, peers, offers, k - 1)
      + (if offers[k - 1].acknowledged then [ShardRef(k - 1, ChunkId(env, u, k - 1), peers[k - 1])] else [])
  }

  /** The chunks of the first k shards, those the peers have kept. */
  function KeptChunks(env: Env, u: Upload, peers: seq<string>, offers: seq<Offer>, k: nat): set<(string, string)>
    requires k <= 4 && |peers| == |offers| == 4
  {
    set i | 0 <= i < k && offers[i].kept :: (peers[i], ChunkId(env, u, i))
  }

  lemma {:induction false} OneMoreKept(env: Env, u: Upload, peers: seq<string>, offers: seq<Offer>, k: nat)
    requires k < 4 && |peers| == |offers| == 4
    ensures KeptChunks(env, u, peers, offers, k + 1)
      == KeptChunks(env, u, peers, offers, k) + (if offers[k].kept then {(peers[k], ChunkId(env, u, k))} else {})
  {
  }

  lemma {:induction false} NoneKept(env: Env, u: Upload, peers: seq<string>, offers: seq<Offer>)
    requires |peers| == |offers| == 4
    ensures KeptChunks(env, u, peers, offers, 0) == {}
  {
  }

  /** Two acknowledgements come from two different peers' turns. */
  lemma {:induction false} AcknowledgedTwice(offers: seq<Offer>)
    ensures Acknowledged(offers) >= 1 <==> exists i :: 0 <= i < |offers| && offers[i].acknowledged
    ensures Acknowledged(offers) >= 2 <==> exists i, j :: 0 <= i < j < |offers| && offers[i].acknowledged && offers[j].acknowledged
  {
    if offers != [] {
      var n := |offers| - 1;
      var most := offers[..n];
      AcknowledgedTwice(most);
      assert forall i :: 0 <= i < n ==> most[i] == offers[i];
      if i :| 0 <= i < n && most[i].acknowledged && offers[n].acknowledged {
        assert offers[i].acknowledged;
      }
    }
  }

  /** Offers each shard to its peer, under its own hash; the references of those
      acknowledged. */
  method PlaceShards(w: World, ghost s0: State, pid: nat, u: Upload, peers: seq<string>, offers: seq<Offer>) returns (placed: seq<ShardRef>)
    requires Reaches(w.env, true, s0, w.s) && pid in w.s.procs && w.s.procs[pid] == Placing(u, 0, [])
    requires |peers| == |offers| == 4
    requires forall i :: 0 <= i < 4 ==> Token(peers[i]) && (offers[i].acknowledged ==> offers[i].kept)
    modifies w
    ensures Reaches(w.env, true, s0, w.s)
    ensures w.s == old(w.s).(held := old(w.s).held + KeptChunks(w.env, u, peers, offers, 4), procs := old(w.s).procs[pid := Placing(u, 4, placed)])
    ensures placed == AcknowledgedRefs(w.env, u, peers, offers, 4) && AllHeld(w.s.held, placed) && |placed| == Acknowledged(offers)
  {
    hide Enabled, NoOverlap, Runs, Apply, Token, TwoHeld, Reaches, KeptChunks;
    var d0, d1, p0, p1, shardSize := SplitStream(u.stream);
    var shards := [d0, d1, p0, p1];
    placed := [];
    NoneKept(w.env, u, peers, offers);
    for i := 0 to 4
      invariant Reaches(w.env, true, s0, w.s)
      invariant w.s == old(w.s).(held := w.s.held, procs := old(w.s).procs[pid := Placing(u, i, placed)])
      invariant AllHeld(w.s.held, placed) && placed == AcknowledgedRefs(w.env, u, peers, offers, i)
      invariant w.s.held == old(w.s).held + KeptChunks(w.env, u, peers, offers, i)
    {
      OneMoreKept(w.env, u, peers, offers, i);
      var chunkId := w.env.hash(shards[i]);
      assert chunkId == ChunkId(w.env, u, i);
      CanPlace(w.env, w.s, pid, peers[i], offers[i], placed);
      Advance(w, s0, Place(pid, peers[i], offers[i].kept, offers[i].acknowledged));
      if offers[i].acknowledged {
        placed := placed + [ShardRef(i, chunkId, peers[i])];
      }
    }
    assert offers[..4] == offers;
  }

  /** Places the four shards and records where they went. Success means that two
      peers hold theirs under the recorded manifest; anything less records nothing. */
  method DistributeToPeers(w: World, pid: nat, u: Upload, peers: seq<string>, offers: seq<Offer>) returns (ok: bool)
    requires Inv(w.env, w.s) && pid !in w.s.procs && FreshChunks(w.env, w.s, u) && GoodUpload(w.env, u)
    requires forall i :: 0 <= i < |peers| ==> Token(peers[i])
    requires |offers| == 4 && forall i :: 0 <= i < 4 ==> offers[i].acknowledged ==> offers[i].kept
    requires forall q :: q in w.s.procs && w.s.procs[q].Syncing() ==> w.s.procs[q].manifest.name != u.name
    modifies w
    ensures Reaches(w.env, true, old(w.s), w.s) && Inv(w.env, w.s) && w.s.procs == old(w.s).procs
    ensures ok <==> |peers| == 4 && Acknowledged(offers) >= 2
    ensures ok ==> u.name in w.s.written && w.s.written[u.name] == u && DurableUpload(w.s, u, false)
    ensures ok ==> w.s.pending == old(w.s).pending[u.name := MakeManifest(w.env, u, AcknowledgedRefs(w.env, u, peers, offers, 4))]
    ensures !ok ==> w.s.pending == old(w.s).pending && w.s.written == old(w.s).written
    ensures w.s.server == old(w.s).server
    ensures w.s.held == if |peers| == 4 then old(w.s).held + KeptChunks(w.env, u, peers, offers, 4) else old(w.s).held
  {
    hide Inv, Enabled, NoOverlap, Runs, Apply, FreshChunks, GoodUpload, Token, TwoHeld, DurableUpload, AcknowledgedRefs, MakeManifest, KeptChunks;
    ghost var s0 := w.s;
    ReachSame(w.env, true, s0);
    if |peers| != 4 {
      return false;
    }
    CanStart(w.env, w.s, pid, u);
    Advance(w, s0, StartUpload(pid, u));
    var placed := PlaceShards(w, s0, pid, u, peers, offers);
    if |placed| < 2 {
      GiveUp(w, s0, pid);
      assert w.s.procs == s0.procs;
      return false;
    }
    CanWrite(w.env, w.s, pid, u, placed);
    Advance(w, s0, WriteManifest(pid));
    assert w.s.procs == s0.procs;
    ReachInv(w.env, s0, w.s);
    return true;
  }

  // ----- straight to the server -----

  /** The server answers, and holds the same non-empty tag. */
  predicate AlreadyThere(s: State, u: Upload, luck: Luck) {
    luck.statReplies && u.name in s.server && u.tag != "" && s.server[u.name].tag == u.tag
  }

  /** Skips the transfer when the server already holds identical content. A body that
      has arrived is stored, even when the reply is lost. */
  method UploadToServer(w: World, u: Upload, luck: Luck) returns (ok: bool)
    modifies w
    ensures Reaches(w.env, true, old(w.s), w.s)
    ensures ok <==> luck.connects && (AlreadyThere(old(w.s), u, luck) || (luck.bodyArrives && luck.replyArrives))
    ensures if luck.connects && !AlreadyThere(old(w.s), u, luck) && luck.bodyArrives
      then w.s.server == old(w.s).server[u.name := Stored(u.stream, u.tag)]
      else w.s == old(w.s)
    ensures w.s == old(w.s).(server := w.s.server, accepted := w.s.accepted, tagPut := w.s.tagPut)
  {
    hide Runs;
    ghost var s0 := w.s;
    ReachSame(w.env, true, s0);
    if !luck.connects {
      return false;
    }
    if luck.statReplies && u.name in w.s.server && u.tag != "" && w.s.server[u.name].tag == u.tag {
      return true;
    }
    if luck.bodyArrives {
      Advance(w, s0, OtherPut(u.name, u.stream, u.tag));
    }
    return luck.bodyArrives && luck.replyArrives;
  }

  /** What an upload of a sealed stream needs from the outside. */
  predicate CanUpload(s: State, u: Upload, reachable: bool, luck: Luck, peers: seq<string>, offers: seq<Offer>) {
    if reachable then luck.connects && (AlreadyThere(s, u, luck) || (luck.bodyArrives && luck.replyArrives))
    else |peers| == 4 && exists i, j :: 0 <= i < j < |offers| && offers[i].acknowledged && offers[j].acknowledged
  }

  /** A sealed file goes straight to the server when that can be reached, and to the
      peers when it cannot; either way, success means it is safe somewhere, and nothing
      but the outside makes it fail. */
  method UploadSealed(w: World, pid: nat, u: Upload, reachable: bool, luck: Luck, peers: seq<string>, offers: seq<Offer>) returns (ok: bool)
    requires Inv(w.env, w.s) && pid !in w.s.procs && FreshChunks(w.env, w.s, u) && GoodUpload(w.env, u)
    requires forall i :: 0 <= i < |peers| ==> Token(peers[i])
    requires |offers| == 4 && forall i :: 0 <= i < 4 ==> offers[i].acknowledged ==> offers[i].kept
    requires forall q :: q in w.s.procs && w.s.procs[q].Syncing() ==> w.s.procs[q].manifest.name != u.name
    modifies w
    ensures Reaches(w.env, true, old(w.s), w.s) && Inv(w.env, w.s)
    ensures ok <==> CanUpload(old(w.s), u, reachable, luck, peers, offers)
    ensures ok && reachable ==> u.name in w.s.server && w.s.server[u.name].tag == u.tag
    ensures reachable ==> w.s.pending == old(w.s).pending && w.s.written == old(w.s).written && w.s.held == old(w.s).held
    ensures reachable ==> if luck.connects && !AlreadyThere(old(w.s), u, luck) && luck.bodyArrives
      then w.s.server == old(w.s).server[u.name := Stored(u.stream, u.tag)]
      else w.s.server == old(w.s).server
    ensures !reachable ==> w.s.server == old(w.s).server
    ensures ok && !reachable ==> u.name in w.s.written && w.s.written[u.name] == u && DurableUpload(w.s, u, false)
    ensures ok && !reachable ==> w.s.pending == old(w.s).pending[u.name := MakeManifest(w.env, u, AcknowledgedRefs(w.env, u, peers, offers, 4))]
    ensures !ok ==> w.s.pending == old(w.s).pending && w.s.written == old(w.s).written
  {
    hide Inv, Runs, FreshChunks, GoodUpload, Token, AcknowledgedRefs, KeptChunks, DurableUpload, MakeManifest, Acknowledged;
    AcknowledgedTwice(offers);
    if reachable {
      ok := UploadToServer(w, u, luck);
      ReachInv(w.env, old(w.s), w.s);
    } else {
      ok := DistributeToPeers(w, pid, u, peers, offers);
    }
  }

  // ----- one pass over the pending directory -----

  lemma {:induction false} OneFewer(m: map<string, Manifest>, name: string)
    requires name in m
    ensures |m - {name}| == |m| - 1 && (m - {name}).Keys == m.Keys - {name}
  {
    assert (m - {name}).Keys == m.Keys - {name};
    assert |m.Keys - {name}| == |m.Keys| - 1;
    assert |m| == |m.Keys| && |m - {name}| == |(m - {name}).Keys|;
  }

  /** How many of the names are pending and have their server offline. */
  function Waiting(s: State, names: seq<string>, reachable: string -> bool): (n: nat) {
    if names == [] then 0
    else
      var last := names[|names| - 1];
      Waiting(s, names[..|names| - 1], reachable) + One(last in s.pending && !reachable(last))
  }

  predicate Distinct(names: seq<string>) {
    forall i, j :: 0 <= i < j < |names| ==> names[i] != names[j]
  }

  /** The names whose turn ends with the file delivered. */
  ghost predicate Delivers(env: Env, s: State, names: seq<string>, reachable: string -> bool, luck: string -> Luck, n: string) {
    n in names && n in s.pending && reachable(n) && Succeeds(env, s, s.pending[n], luck(n))
  }

  /** What a pass leaves of one manifest: all of it and its chunks, or none of it and of
      its chunks none that could be reached. */
  ghost predicate Settled(s0: State, s: State, luck: string -> Luck, n: string)
    requires n in s0.pending
  {
    if n in s.pending then
      s.pending[n] == s0.pending[n]
      && forall i :: 0 <= i < |s.pending[n].shards| && Held(s0.held, s.pending[n].shards[i]) ==> Held(s.held, s.pending[n].shards[i])
    else
      forall i :: 0 <= i < |s0.pending[n].shards| && luck(n).reached(i) ==> !Held(s.held, s0.pending[n].shards[i])
  }

  /** Names not yet reached are as they were, and so is what the server has of them. */
  ghost predicate NotYet(s0: State, s: State, n: string) {
    (n in s.pending <==> n in s0.pending) && (n in s.server <==> n in s0.server)
    && (n in s.server ==> s.server[n] == s0.server[n])
  }

  /** Whether an attempt succeeds depends on the server's file of that name alone. */
  lemma {:induction false} SucceedsAlike(env: Env, s: State, s': State, n: string, m: Manifest, luck: Luck)
    requires m.name == n && NotYet(s, s', n)
    ensures Succeeds(env, s, m, luck) <==> Succeeds(env, s', m, luck)
  {
    hide Rebuildable;
  }

  /** Manifests of different names share no chunk. */
  lemma {:induction false} ChunksApart(env: Env, s: State, n: string, k: string, i: nat, j: nat)
    requires Inv(env, s) && n in s.pending && k in s.pending && n != k && i < |s.pending[n].shards| && j < |s.pending[k].shards|
    ensures s.pending[n].shards[i].chunkId != s.pending[k].shards[j].chunkId
  {
    hide GoodEnv, GoodProc, Reread, WellFormedShard, GoodUpload;
    assert s.written[n] != s.written[k];
    assert InRange(s.pending[n].shards[i]) && InRange(s.pending[k].shards[j]);
  }

  /** A pass that began in s0, after its first k names. */
  ghost predicate Progress(env: Env, s0: State, s: State, names: seq<string>, reachable: string -> bool, luck: string -> Luck, k: nat)
    requires k <= |names|
  {
    s.pending.Keys <= s0.pending.Keys && s.written == s0.written
    && (forall n :: n in s0.pending && n !in s.pending ==> n in names[..k] && reachable(n))
    && (forall n :: n in s0.pending && n in s0.written && n !in s.pending ==> HasArrived(s, n, s0.written[n]))
    && (forall n :: n !in names[..k] ==> NotYet(s0, s, n))
    && (forall n :: Delivers(env, s0, names[..k], reachable, luck, n) ==> n !in s.pending)
    && (Distinct(names) ==> forall n :: n in s0.pending && n !in s.pending ==> Delivers(env, s0, names[..k], reachable, luck, n))
    && (forall n :: n in s0.pending ==> Settled(s0, s, luck, n))
  }

  lemma {:induction false} PassSkips(env: Env, s0: State, s: State, names: seq<string>, reachable: string -> bool, luck: string -> Luck, k: nat)
    requires k < |names| && Progress(env, s0, s, names, reachable, luck, k) && (names[k] !in s.pending || !reachable(names[k]))
    ensures Progress(env, s0, s, names, reachable, luck, k + 1)
  {
    hide Succeeds, HasArrived, Settled;
    assert names[..k + 1] == names[..k] + [names[k]];
    forall n | Delivers(env, s0, names[..k + 1], reachable, luck, n) ensures n !in s.pending {
      assert n in names[..k] ==> Delivers(env, s0, names[..k], reachable, luck, n);
      assert n !in names[..k] ==> NotYet(s0, s, n);
    }
    forall n | Distinct(names) && n in s0.pending && n !in s.pending ensures Delivers(env, s0, names[..k + 1], reachable, luck, n) {
      assert Delivers(env, s0, names[..k], reachable, luck, n);
    }
  }

  /** The effect of one attempt. */
  ghost predicate Tried(env: Env, s: State, s': State, name: string, luck: Luck, ok: bool) {
    name in s.pending && name in s.written && s'.written == s.written && s.accepted <= s'.accepted && s.tagSeen <= s'.tagSeen
    && (ok <==> Succeeds(env, s, s.pending[name], luck))
    && (ok ==> HasArrived(s', name, s.written[name]))
    && s'.pending == (if ok then s.pending - {name} else s.pending)
    && s'.held == (if ok then s.held - Released(s.pending[name].shards, luck, |s.pending[name].shards|) else s.held)
    && s'.server == Forwarded(env, s, name, luck)
  }

  lemma {:induction false} TriedNames(env: Env, s: State, s': State, name: string, luck: Luck, ok: bool, n: string)
    requires Inv(env, s) && Tried(env, s, s', name, luck, ok) && n != name
    ensures NotYet(s, s', n) && (HasArrived(s, n, if n in s.written then s.written[n] else s.written[name]) ==>
      HasArrived(s', n, if n in s.written then s.written[n] else s.written[name]))
  {
    hide Succeeds, Rebuildable, Inv, Released;
    ManifestNames(env, s, name);
  }

  lemma {:induction false} TriedSettles(env: Env, s0: State, s: State, s': State, name: string, luck: string -> Luck, ok: bool, n: string)
    requires Inv(env, s) && Tried(env, s, s', name, luck(name), ok) && n in s0.pending && Settled(s0, s, luck, n)
    requires name in s0.pending && Settled(s0, s, luck, name)
    ensures Settled(s0, s', luck, n)
  {
    hide Succeeds, Inv, Forwarded, HasArrived;
    if n in s'.pending && ok {
      forall i, j | 0 <= i < |s.pending[n].shards| && 0 <= j < |s.pending[name].shards|
        ensures s.pending[n].shards[i].chunkId != s.pending[name].shards[j].chunkId
      {
        ChunksApart(env, s, n, name, i, j);
      }
    }
  }

  lemma {:induction false} PassTries(env: Env, s0: State, s: State, s': State, names: seq<string>, reachable: string -> bool,
                                     luck: string -> Luck, k: nat, ok: bool)
    requires k < |names| && Inv(env, s) && Progress(env, s0, s, names, reachable, luck, k)
    requires names[k] in s.pending && reachable(names[k]) && Tried(env, s, s', names[k], luck(names[k]), ok)
    ensures Progress(env, s0, s', names, reachable, luck, k + 1)
  {
    hide Inv, Succeeds, Settled, HasArrived, Forwarded, Released, NotYet;
    var name := names[k];
    assert names[..k + 1] == names[..k] + [name];
    assert name in s0.pending && s.pending[name] == s0.pending[name] by { StillWhole(s0, s, luck, name); }
    forall n | n in s0.pending ensures Settled(s0, s', luck, n) {
      TriedSettles(env, s0, s, s', name, luck, ok, n);
    }
    forall n | n !in names[..k + 1] ensures NotYet(s0, s', n) {
      TriedNames(env, s, s', name, luck(name), ok, n);
      NotYetTwice(s0, s, s', n);
    }
    if name !in names[..k] {
      ManifestNames(env, s, name);
      SucceedsAlike(env, s0, s, name, s.pending[name], luck(name));
    }
    forall n | n in s0.pending && n in s0.written && n !in s'.pending ensures HasArrived(s', n, s0.written[n]) {
      if n != name {
        TriedNames(env, s, s', name, luck(name), ok, n);
      }
    }
    forall n | Delivers(env, s0, names[..k + 1], reachable, luck, n) ensures n !in s'.pending {
      assert n in names[..k] ==> Delivers(env, s0, names[..k], reachable, luck, n);
    }
    forall n | Distinct(names) && n in s0.pending && n !in s'.pending ensures Delivers(env, s0, names[..k + 1], reachable, luck, n) {
      assert n != name ==> Delivers(env, s0, names[..k], reachable, luck, n);
    }
  }

  lemma {:induction false} StillWhole(s0: State, s: State, luck: string -> Luck, n: string)
    requires n in s.pending && s.pending.Keys <= s0.pending.Keys && Settled(s0, s, luck, n)
    ensures s.pending[n] == s0.pending[n]
  {
  }

  lemma {:induction false} NotYetTwice(a: State, b: State, c: State, n: string)
    requires NotYet(a, b, n) && NotYet(b, c, n)
    ensures NotYet(a, c, n)
  {
  }

  /** Every manifest found is counted once. Those whose server is offline wait; of the
      others, those gone afterwards are the ones whose rebuild and delivery succeed, and
      the server has had each of them. A manifest that stays is as it was, and so are
      its chunks. */
  method SyncOnce(w: World, pid: nat, names: seq<string>, reachable: string -> bool, luck: string -> Luck) returns (r: SyncResult)
    requires Inv(w.env, w.s) && pid !in w.s.procs && forall n :: AnswersSeen(w.env, luck(n))
    requires w.s.pending.Keys <= w.s.written.Keys
    modifies w
    ensures Reaches(w.env, true, old(w.s), w.s) && Inv(w.env, w.s)
    ensures r.synced + r.waiting + r.failed == |names|
    ensures r.waiting == Waiting(old(w.s), names, reachable)
    ensures w.s.pending.Keys <= old(w.s).pending.Keys && |old(w.s).pending| == |w.s.pending| + r.synced
    ensures forall n :: Delivers(w.env, old(w.s), names, reachable, luck, n) ==> n !in w.s.pending
    ensures Distinct(names) ==>
      forall n :: n in old(w.s).pending && n !in w.s.pending ==> Delivers(w.env, old(w.s), names, reachable, luck, n)
    ensures forall n :: n in old(w.s).pending && n !in w.s.pending ==> reachable(n) && HasArrived(w.s, n, old(w.s).written[n])
    ensures forall n :: n in old(w.s).pending ==> Settled(old(w.s), w.s, luck, n)
  {
    hide Inv, Runs, AnswersSeen, Succeeds, Forwarded, Released, Progress, Reaches, Delivers, Settled, Distinct, HasArrived;
    r := SyncResult(0, 0, 0);
    ghost var s0 := w.s;
    ReachSame(w.env, true, s0);
    NoProgress(w.env, s0, names, reachable, luck);
    for i := 0 to |names|
      invariant Reaches(w.env, true, s0, w.s) && Inv(w.env, w.s) && w.s.procs == s0.procs
      invariant r.synced + r.waiting + r.failed == i && r.waiting == Waiting(s0, names[..i], reachable)
      invariant |s0.pending| == |w.s.pending| + r.synced && Progress(w.env, s0, w.s, names, reachable, luck, i)
    {
      var name := names[i];
      assert names[..i + 1][..i] == names[..i];
      if name !in w.s.pending {
        PassSkips(w.env, s0, w.s, names, reachable, luck, i);
        StillWaiting(w.env, s0, w.s, names, reachable, luck, i);
        r := r.(failed := r.failed + 1);
      } else if !reachable(name) {
        PassSkips(w.env, s0, w.s, names, reachable, luck, i);
        StillWaiting(w.env, s0, w.s, names, reachable, luck, i);
        r := r.(waiting := r.waiting + 1);
      } else {
        ghost var s1 := w.s;
        OneFewer(w.s.pending, name);
        ManifestNames(w.env, w.s, name);
        var ok := SyncOne(w, pid, name, luck(name));
        ReachTrans(w.env, true, s0, s1, w.s);
        assert Tried(w.env, s1, w.s, name, luck(name), ok);
        PassTries(w.env, s0, s1, w.s, names, reachable, luck, i, ok);
        r := if ok then r.(synced := r.synced + 1) else r.(failed := r.failed + 1);
      }
    }
    assert names[..|names|] == names;
    PassOver(w.env, s0, w.s, names, reachable, luck);
  }

  lemma {:induction false} NoProgress(env: Env, s: State, names: seq<string>, reachable: string -> bool, luck: string -> Luck)
    ensures Progress(env, s, s, names, reachable, luck, 0)
  {
    hide Succeeds, HasArrived;
  }

  /** A name whose server is offline is still there when its turn comes. */
  lemma {:induction false} StillWaiting(env: Env, s0: State, s: State, names: seq<string>, reachable: string -> bool, luck: string -> Luck, k: nat)
    requires k < |names| && Progress(env, s0, s, names, reachable, luck, k)
    ensures !reachable(names[k]) ==> (names[k] in s.pending <==> names[k] in s0.pending)
  {
    hide Succeeds, HasArrived, Settled;
  }

  lemma {:induction false} PassOver(env: Env, s0: State, s: State, names: seq<string>, reachable: string -> bool, luck: string -> Luck)
    requires Progress(env, s0, s, names, reachable, luck, |names|) && s0.pending.Keys <= s0.written.Keys
    ensures s.pending.Keys <= s0.pending.Keys
    ensures forall n :: Delivers(env, s0, names, reachable, luck, n) ==> n !in s.pending
    ensures Distinct(names) ==> forall n :: n in s0.pending && n !in s.pending ==> Delivers(env, s0, names, reachable, luck, n)
    ensures forall n :: n in s0.pending && n !in s.pending ==> reachable(n) && HasArrived(s, n, s0.written[n])
    ensures forall n :: n in s0.pending ==> Settled(s0, s, luck, n)
  {
    hide Succeeds, HasArrived, Settled;
    assert names[..|names|] == names;
  }
}

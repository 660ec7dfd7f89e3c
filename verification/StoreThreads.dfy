/** The store under concurrent connections. Each connection runs on a thread of
    its own; uploads are received into temporary files without the lock, and one
    mutex covers the rename and the tag, a deletion, and every look-up. A GETFILE
    opens the file only after it has let go of the mutex. The tag is a file of its
    own: opening it, or writing it, may fail without anyone noticing, and the
    server may stop between any two effects. */
module StoreThreads {
  import opened Wrappers
  import opened SafeName
  import opened Manifests
  import opened Store

  datatype Key = Key(user: string, name: string)

  /** A PUT: what it declared, and the bytes that came off its connection. */
  datatype Upload = Upload(key: Key, tag: string, size: nat, body: string)

  /** How far a PUT got with the tag file: not yet opened, which leaves the tag that
      was there before, or opened, which empties it, and n bytes of the line
      written. */
  datatype Fate = Untouched(before: string) | Kept(n: nat)

  /** The PUT whose body a name shows, and what became of its tag. */
  datatype Shown = Shown(up: Upload, fate: Fate)
  {
    function Sidecar(): string { up.tag + "\n" }
    predicate Tagged() { fate == Kept(|up.tag| + 1) }
  }

  /** The tag a look-up reports. */
  function ShownTag(sh: Shown): string {
    match sh.fate
    case Untouched(before) => before
    case Kept(n) => if n <= |sh.up.tag| then sh.up.tag[..n] else sh.up.tag
  }

  /** Where a thread is. `seen` and `version` on a GETFILE record what it was told
      about; `exact` that nothing was committed or deleted there before it opened. */
  datatype Pc =
    | Idle
    | Receiving(up: Upload, hex: string)
    | PutHeld(up: Upload, hex: string)
    | PutMoved(up: Upload)
    | PutTruncated(up: Upload)
    | PutDone(up: Upload)
    | DelHeld(key: Key)
    | DelHalf(key: Key, existed: bool)
    | DelDone(key: Key, existed: bool)
    | LookHeld(key: Key, get: bool)
    | LookSized(key: Key, get: bool, found: Option<nat>)
    | LookDone(key: Key, get: bool, info: Option<(nat, string)>)
    | Looked(key: Key, size: nat, seen: string, version: nat)
    | Opened(key: Key, size: nat, content: Option<string>, seen: string, exact: bool)
  {
    predicate Holding() {
      PutHeld? || PutMoved? || PutTruncated? || PutDone? || DelHeld? || DelHalf? || DelDone? || LookHeld? || LookSized? || LookDone?
    }
    predicate HasTemp() { Receiving? || PutHeld? }
    predicate Torn() { PutMoved? || PutTruncated? || DelHalf? }
    function TornKey(): Key
      requires Torn()
    {
      if DelHalf? then key else up.key
    }
  }

  /** `shown` is the last PUT renamed into each name that has a file; `versions`
      counts renames and deletions of each name. */
  datatype State = State(
    fs: Fs,
    lock: Option<nat>,
    pcs: map<nat, Pc>,
    shown: map<Key, Shown>,
    commits: set<Upload>,
    versions: map<Key, nat>)

  function PcOf(s: State, t: nat): Pc {
    if t in s.pcs then s.pcs[t] else Idle
  }

  function Version(s: State, k: Key): nat {
    if k in s.versions then s.versions[k] else 0
  }

  predicate ValidKey(k: Key) {
    IsValidUsername(k.user) && IsSafeName(k.name)
  }

  function FileAt(root: string, k: Key): string {
    match FilePath(root, k.user, k.name) case Some(p) => p case None => ""
  }

  function TagAt(root: string, k: Key): string {
    match TagPath(root, k.user, k.name) case Some(p) => p case None => ""
  }

  function Content(fs: Fs, path: string): string {
    if path in fs then fs[path] else ""
  }

  predicate IsTemp(root: string, path: string) {
    root + "/tmp/" <= path
  }

  function InfoOf(s: State, k: Key): Option<(nat, string)> {
    if k in s.shown then Some((|s.shown[k].up.body|, ShownTag(s.shown[k]))) else None
  }

  // ----- steps -----

  datatype Step =
    | Begin(t: nat, key: Key, tag: string, size: nat, hex: string)
    | Slice(t: nat, data: string)
    | Cut(t: nat)
    | LockPut(t: nat)
    | Rename(t: nat)
    | RenameFails(t: nat)
    | Truncate(t: nat)
    | TagOpenFails(t: nat)
    | WriteTag(t: nat, n: nat)
    | EndTag(t: nat)
    | LockDel(t: nat, key: Key)
    | DropFile(t: nat)
    | DropTag(t: nat)
    | LockLook(t: nat, key: Key, get: bool)
    | ReadSize(t: nat)
    | ReadTag(t: nat)
    | Unlock(t: nat)
    | Open(t: nat)
    | Finish(t: nat)
    | Stop

  function Go(s: State, t: nat, pc: Pc): State {
    s.(pcs := s.pcs[t := pc])
  }

  function Bump(s: State, k: Key): State {
    s.(versions := s.versions[k := Version(s, k) + 1])
  }

  predicate Enabled(root: string, s: State, step: Step) {
    match step
    case Begin(t, key, tag, size, hex) =>
      PcOf(s, t).Idle? && ValidKey(key) && '\n' !in tag && TempPath(root, hex) !in s.fs
    case Slice(t, data) => PcOf(s, t).Receiving? && |PcOf(s, t).up.body| + |data| <= PcOf(s, t).up.size
    case Cut(t) => PcOf(s, t).Receiving?
    case LockPut(t) => PcOf(s, t).Receiving? && |PcOf(s, t).up.body| == PcOf(s, t).up.size && s.lock.None?
    case Rename(t) => PcOf(s, t).PutHeld?
    case RenameFails(t) => PcOf(s, t).PutHeld?
    case Truncate(t) => PcOf(s, t).PutMoved?
    case TagOpenFails(t) => PcOf(s, t).PutMoved?
    case WriteTag(t, n) => PcOf(s, t).PutTruncated? && n <= |PcOf(s, t).up.tag| + 1
    case EndTag(t) => PcOf(s, t).PutTruncated?
    case LockDel(t, key) => PcOf(s, t).Idle? && ValidKey(key) && s.lock.None?
    case DropFile(t) => PcOf(s, t).DelHeld?
    case DropTag(t) => PcOf(s, t).DelHalf?
    case LockLook(t, key, get) => PcOf(s, t).Idle? && ValidKey(key) && s.lock.None?
    case ReadSize(t) => PcOf(s, t).LookHeld?
    case ReadTag(t) => PcOf(s, t).LookSized?
    case Unlock(t) => PcOf(s, t).PutDone? || PcOf(s, t).DelDone? || PcOf(s, t).LookDone?
    case Open(t) => PcOf(s, t).Looked?
    case Finish(t) => PcOf(s, t).Opened?
    case Stop => true
  }

  /** What the hypotheses on the tag file exclude: a failing open, a write that ends
      before the line does, and a stop inside the critical section. */
  predicate Fault(s: State, step: Step) {
    match step
    case TagOpenFails(_) => true
    case EndTag(t) =>
      PcOf(s, t).PutTruncated? && PcOf(s, t).up.key in s.shown && !s.shown[PcOf(s, t).up.key].Tagged()
    case Stop => s.lock.Some?
    case _ => false
  }

  function Refate(s: State, k: Key, up: Upload, fate: Fate): State {
    s.(shown := s.shown[k := Shown(up, fate)])
  }

  /** The effect of one step on the files, the mutex and the stepping thread. */
  function Apply(root: string, s: State, step: Step): State
    requires Enabled(root, s, step)
  {
    match step
    case Begin(t, key, tag, size, hex) =>
      Go(s.(fs := s.fs[TempPath(root, hex) := ""]), t, Receiving(Upload(key, tag, size, ""), hex))
    case Slice(t, data) =>
      var pc, temp := PcOf(s, t), TempPath(root, PcOf(s, t).hex);
      Go(s.(fs := s.fs[temp := Content(s.fs, temp) + data]), t, Receiving(pc.up.(body := pc.up.body + data), pc.hex))
    case Cut(t) => Go(s.(fs := s.fs - {TempPath(root, PcOf(s, t).hex)}), t, Idle)
    case LockPut(t) => Go(s.(lock := Some(t)), t, PutHeld(PcOf(s, t).up, PcOf(s, t).hex))
    case Rename(t) =>
      var up, temp := PcOf(s, t).up, TempPath(root, PcOf(s, t).hex);
      var moved := (s.fs - {temp})[FileAt(root, up.key) := Content(s.fs, temp)];
      var before := TagOf(s.fs, TagAt(root, up.key));
      Go(Refate(Bump(s, up.key), up.key, up, Untouched(before)).(fs := moved, commits := s.commits + {up}), t, PutMoved(up))
    case RenameFails(t) => Go(s.(fs := s.fs - {TempPath(root, PcOf(s, t).hex)}, lock := None), t, Idle)
    case Truncate(t) =>
      var up := PcOf(s, t).up;
      Go(Refate(s, up.key, up, Kept(0)).(fs := s.fs[TagAt(root, up.key) := ""]), t, PutTruncated(up))
    case TagOpenFails(t) => Go(s, t, PutDone(PcOf(s, t).up))
    case WriteTag(t, n) =>
      var up := PcOf(s, t).up;
      Refate(s, up.key, up, Kept(n)).(fs := s.fs[TagAt(root, up.key) := (up.tag + "\n")[..n]])
    case EndTag(t) => Go(s, t, PutDone(PcOf(s, t).up))
    case LockDel(t, key) => Go(s.(lock := Some(t)), t, DelHeld(key))
    case DropFile(t) =>
      var key := PcOf(s, t).key;
      Go(Bump(s, key).(fs := s.fs - {FileAt(root, key)}, shown := s.shown - {key}), t, DelHalf(key, FileAt(root, key) in s.fs))
    case DropTag(t) =>
      var key := PcOf(s, t).key;
      Go(s.(fs := s.fs - {TagAt(root, key)}), t, DelDone(key, PcOf(s, t).existed))
    case LockLook(t, key, get) => Go(s.(lock := Some(t)), t, LookHeld(key, get))
    case ReadSize(t) =>
      var pc := PcOf(s, t);
      var path := FileAt(root, pc.key);
      Go(s, t, LookSized(pc.key, pc.get, if path in s.fs then Some(|s.fs[path]|) else None))
    case ReadTag(t) =>
      var pc := PcOf(s, t);
      var info := match pc.found case Some(n) => Some((n, TagOf(s.fs, TagAt(root, pc.key)))) case None => None;
      Go(s, t, LookDone(pc.key, pc.get, info))
    case Unlock(t) =>
      var pc := PcOf(s, t);
      if pc.LookDone? && pc.get && pc.info.Some? && pc.key in s.shown
      then Go(s.(lock := None), t, Looked(pc.key, pc.info.value.0, s.shown[pc.key].up.body, Version(s, pc.key)))
      else Go(s.(lock := None), t, Idle)
    case Open(t) =>
      var pc := PcOf(s, t);
      var path := FileAt(root, pc.key);
      Go(s, t, Opened(pc.key, pc.size, if path in s.fs then Some(s.fs[path]) else None, pc.seen, pc.version == Version(s, pc.key)))
    case Finish(t) => Go(s, t, Idle)
    case Stop => s.(fs := map p | p in s.fs && !IsTemp(root, p) :: s.fs[p], lock := None, pcs := map[])
  }

  function Start(): State {
    State(map[], None, map[], map[], {}, map[])
  }

  /** The steps, each enabled when taken, lead from s to s'; a clean run has no
      fault in it. */
  ghost predicate Run(root: string, clean: bool, s: State, steps: seq<Step>, s': State)
    decreases |steps|
  {
    if steps == [] then s == s'
    else
      Enabled(root, s, steps[0]) && (clean ==> !Fault(s, steps[0]))
      && Run(root, clean, Apply(root, s, steps[0]), steps[1..], s')
  }

  // ----- the invariant -----

  ghost predicate BodyOfOnePut(s: State, k: Key, body: string) {
    exists u :: u in s.commits && u.key == k && u.body == body && |u.body| == u.size
  }

  /** On disk, k is what `shown` says. */
  predicate Settled(root: string, s: State, k: Key) {
    if k in s.shown then
      BodyAt(root, s, k, s.shown[k].up.body) && SidecarIs(s.fs, TagAt(root, k), s.shown[k])
    else FileAt(root, k) !in s.fs
  }

  predicate SidecarIs(fs: Fs, path: string, sh: Shown) {
    match sh.fate
    case Untouched(before) => TagOf(fs, path) == before
    case Kept(n) => n <= |sh.up.tag| + 1 && path in fs && fs[path] == sh.Sidecar()[..n]
  }

  predicate BodyAt(root: string, s: State, k: Key, body: string) {
    FileAt(root, k) in s.fs && s.fs[FileAt(root, k)] == body
  }

  ghost predicate InvLock(s: State) {
    forall t: nat :: PcOf(s, t).Holding() <==> s.lock == Some(t)
  }

  predicate OwnTemp(root: string, s: State, t: nat) {
    PcOf(s, t).HasTemp() ==>
      TempPath(root, PcOf(s, t).hex) in s.fs && s.fs[TempPath(root, PcOf(s, t).hex)] == PcOf(s, t).up.body
  }

  predicate TempsDiffer(root: string, s: State, t: nat, t': nat) {
    PcOf(s, t).HasTemp() && PcOf(s, t').HasTemp() && t != t' ==>
      TempPath(root, PcOf(s, t).hex) != TempPath(root, PcOf(s, t').hex)
  }

  ghost predicate InvTemps(root: string, s: State) {
    (forall t: nat :: OwnTemp(root, s, t)) && (forall t: nat, t': nat :: TempsDiffer(root, s, t, t'))
  }

  ghost predicate InvDisk(root: string, s: State) {
    forall k :: ValidKey(k) ==> Settled(root, s, k)
  }

  predicate UpOk(up: Upload) {
    ValidKey(up.key) && '\n' !in up.tag && |up.body| <= up.size
  }

  ghost predicate InvPast(s: State) {
    (forall u :: u in s.commits ==> UpOk(u) && |u.body| == u.size)
    && (forall k :: k in s.shown ==> s.shown[k].up in s.commits && s.shown[k].up.key == k)
  }

  predicate ShowsOwn(s: State, up: Upload) {
    up in s.commits && up.key in s.shown && s.shown[up.key].up == up
  }

  ghost predicate ThreadOk(s: State, pc: Pc) {
    match pc
    case Idle => true
    case Receiving(up, _) => UpOk(up)
    case PutHeld(up, _) => UpOk(up) && |up.body| == up.size
    case PutMoved(up) => ShowsOwn(s, up) && s.shown[up.key].fate.Untouched?
    case PutTruncated(up) => ShowsOwn(s, up) && s.shown[up.key].fate.Kept?
    case PutDone(up) => ShowsOwn(s, up)
    case DelHeld(key) => ValidKey(key)
    case DelHalf(key, _) => ValidKey(key) && key !in s.shown
    case DelDone(key, _) => ValidKey(key) && key !in s.shown
    case LookHeld(key, _) => ValidKey(key)
    case LookSized(key, _, found) =>
      ValidKey(key) && found == (if key in s.shown then Some(|s.shown[key].up.body|) else None)
    case LookDone(key, _, info) => ValidKey(key) && info == InfoOf(s, key)
    case Looked(key, size, seen, version) =>
      ValidKey(key) && size == |seen| && BodyOfOnePut(s, key, seen) && version <= Version(s, key)
      && (version == Version(s, key) ==> key in s.shown && s.shown[key].up.body == seen)
    case Opened(key, size, content, seen, exact) =>
      ValidKey(key) && size == |seen| && BodyOfOnePut(s, key, seen)
      && (content.Some? ==> BodyOfOnePut(s, key, content.value)) && (exact ==> content == Some(seen))
  }

  ghost predicate InvThreads(s: State) {
    forall t: nat :: ThreadOk(s, PcOf(s, t))
  }

  ghost predicate Inv(root: string, s: State) {
    InvLock(s) && InvTemps(root, s) && InvDisk(root, s) && InvPast(s) && InvThreads(s)
  }

  predicate TornAt(s: State, k: Key) {
    s.lock.Some? && PcOf(s, s.lock.value).Torn() && PcOf(s, s.lock.value).TornKey() == k
  }

  /** Without faults, besides: outside the critical sections every file has its own
      whole tag, and no tag is left without its file. */
  predicate CleanAt(root: string, s: State, k: Key) {
    !TornAt(s, k) ==> if k in s.shown then s.shown[k].Tagged() else TagAt(root, k) !in s.fs
  }

  ghost predicate InvClean(root: string, s: State) {
    forall k :: ValidKey(k) ==> CleanAt(root, s, k)
  }

  // ----- which paths a step leaves alone -----

  predicate Agree(fs: Fs, fs': Fs, path: string) {
    (path in fs <==> path in fs') && (path in fs ==> fs[path] == fs'[path])
  }

  ghost predicate OnlyIn(fs: Fs, fs': Fs, paths: set<string>) {
    forall q :: q !in paths ==> Agree(fs, fs', q)
  }

  /** Nothing an account holds has changed. */
  ghost predicate SameFiles(root: string, fs: Fs, fs': Fs) {
    forall k :: ValidKey(k) ==> Agree(fs, fs', FileAt(root, k)) && Agree(fs, fs', TagAt(root, k))
  }

  /** Nothing any other account or name holds has changed. */
  ghost predicate SameElsewhere(root: string, fs: Fs, fs': Fs, key: Key) {
    forall k :: ValidKey(k) && k != key ==> Agree(fs, fs', FileAt(root, k)) && Agree(fs, fs', TagAt(root, k))
  }

  lemma {:induction false} KeyPaths(root: string, k: Key, k': Key)
    requires ValidKey(k) && ValidKey(k')
    ensures k != k' ==> FileAt(root, k) != FileAt(root, k') && TagAt(root, k) != TagAt(root, k')
    ensures FileAt(root, k) != TagAt(root, k') && TagAt(root, k) != FileAt(root, k')
  {
    PathsInjective(root, k.user, k.name, k'.user, k'.name);
    PathsInjective(root, k'.user, k'.name, k.user, k.name);
  }

  lemma {:induction false} KeyApart(root: string, k: Key, hex: string)
    requires ValidKey(k)
    ensures FileAt(root, k) != TempPath(root, hex) && TagAt(root, k) != TempPath(root, hex)
    ensures !IsTemp(root, FileAt(root, k)) && !IsTemp(root, TagAt(root, k))
  {
    AreasDisjoint(root, k.user, k.name, "", hex);
    FileShape(root, k.user, k.name);
    assert FileAt(root, k)[|root| + 1] == 'u' && TagAt(root, k)[|root| + 1] == 'u' && (root + "/tmp/")[|root| + 1] == 't';
  }

  lemma {:induction false} TempOnly(root: string, fs: Fs, fs': Fs, hex: string)
    requires OnlyIn(fs, fs', {TempPath(root, hex)})
    ensures SameFiles(root, fs, fs')
  {
    hide FileAt, TagAt, TempPath, ValidKey, IsTemp, Agree;
    forall k | ValidKey(k) ensures Agree(fs, fs', FileAt(root, k)) && Agree(fs, fs', TagAt(root, k)) {
      KeyApart(root, k, hex);
    }
  }

  lemma {:induction false} KeyOnly(root: string, fs: Fs, fs': Fs, key: Key, paths: set<string>)
    requires ValidKey(key) && OnlyIn(fs, fs', paths)
    requires forall p :: p in paths ==> p == FileAt(root, key) || p == TagAt(root, key) || exists hex :: p == TempPath(root, hex)
    ensures SameElsewhere(root, fs, fs', key)
  {
    hide FileAt, TagAt, TempPath, ValidKey, IsTemp, Agree;
    forall k | ValidKey(k) && k != key ensures Agree(fs, fs', FileAt(root, k)) && Agree(fs, fs', TagAt(root, k)) {
      KeyPaths(root, k, key);
      forall hex ensures FileAt(root, k) != TempPath(root, hex) && TagAt(root, k) != TempPath(root, hex) {
        KeyApart(root, k, hex);
      }
    }
  }

  // ----- every step keeps the invariant -----

  /** Only thread t moved, from one program counter to another. */
  ghost predicate Moved(s: State, s': State, t: nat) {
    forall u: nat :: u != t ==> PcOf(s', u) == PcOf(s, u)
  }

  predicate SameGhost(s: State, s': State) {
    s'.shown == s.shown && s'.commits == s.commits && s'.versions == s.versions
  }

  lemma {:induction false} KeepTemps(root: string, s: State, s': State, t: nat)
    requires InvTemps(root, s) && Moved(s, s', t) && OwnTemp(root, s', t)
    requires forall u: nat :: u != t && PcOf(s, u).HasTemp() ==> Agree(s.fs, s'.fs, TempPath(root, PcOf(s, u).hex))
    requires forall u: nat :: TempsDiffer(root, s', t, u)
    ensures InvTemps(root, s')
  {
    hide TempPath;
    forall u: nat ensures OwnTemp(root, s', u) {
      assert OwnTemp(root, s, u);
    }
    forall u: nat, u': nat ensures TempsDiffer(root, s', u, u') {
      assert TempsDiffer(root, s, u, u') && TempsDiffer(root, s', t, u') && TempsDiffer(root, s', t, u);
    }
  }

  lemma {:induction false} SameTag(fs: Fs, fs': Fs, path: string)
    requires Agree(fs, fs', path)
    ensures TagOf(fs, path) == TagOf(fs', path)
  {
  }

  lemma {:induction false} KeepSettled(root: string, s: State, s': State, k: Key)
    requires Settled(root, s, k) && Agree(s.fs, s'.fs, FileAt(root, k)) && Agree(s.fs, s'.fs, TagAt(root, k))
    requires (k in s.shown <==> k in s'.shown) && (k in s.shown ==> s'.shown[k] == s.shown[k])
    ensures Settled(root, s', k)
  {
    hide FileAt, TagAt, TagOf;
    SameTag(s.fs, s'.fs, TagAt(root, k));
  }

  lemma {:induction false} KeepDisk(root: string, s: State, s': State)
    requires InvDisk(root, s) && SameFiles(root, s.fs, s'.fs) && s'.shown == s.shown
    ensures InvDisk(root, s')
  {
    hide FileAt, TagAt, ValidKey, Agree, Settled;
    forall k | ValidKey(k) ensures Settled(root, s', k) {
      KeepSettled(root, s, s', k);
    }
  }

  /** A thread's knowledge survives what does not touch the store. */
  lemma {:induction false} KeepThread(s: State, s': State, pc: Pc)
    requires ThreadOk(s, pc) && SameGhost(s, s')
    ensures ThreadOk(s', pc)
  {
    hide ValidKey;
  }

  lemma {:induction false} KeepThreads(s: State, s': State, t: nat)
    requires InvThreads(s) && Moved(s, s', t) && SameGhost(s, s') && ThreadOk(s', PcOf(s', t))
    ensures InvThreads(s')
  {
    hide ThreadOk;
    forall u: nat ensures ThreadOk(s', PcOf(s', u)) {
      if u != t {
        KeepThread(s, s', PcOf(s, u));
      }
    }
  }

  lemma {:induction false} ThreadAt(root: string, s: State, t: nat)
    requires Inv(root, s)
    ensures InvThreads(s) && ThreadOk(s, PcOf(s, t))
  {
  }

  lemma {:induction false} TempAt(root: string, s: State, t: nat)
    requires Inv(root, s)
    ensures OwnTemp(root, s, t)
  {
  }

  lemma {:induction false} DiskAt(root: string, s: State, k: Key)
    requires Inv(root, s) && ValidKey(k)
    ensures Settled(root, s, k) && InvPast(s) && InvLock(s)
    ensures k in s.shown ==> s.shown[k].up in s.commits && s.shown[k].up.key == k && BodyOfOnePut(s, k, s.shown[k].up.body)
  {
    hide FileAt, TagAt;
  }

  /** A step that leaves every file alone. */
  predicate Quiet(step: Step) {
    step.LockPut? || step.LockDel? || step.LockLook? || step.ReadSize? || step.ReadTag? || step.Unlock? || step.Open? || step.Finish?
    || step.TagOpenFails? || step.EndTag?
  }

  /** The tag file of a settled name reads as the tag shown. */
  lemma {:induction false} SidecarTag(fs: Fs, path: string, sh: Shown)
    requires SidecarIs(fs, path, sh) && '\n' !in sh.up.tag
    ensures TagOf(fs, path) == ShownTag(sh)
  {
    hide Lines;
    if sh.fate.Kept? {
      var n, tag := sh.fate.n, sh.up.tag;
      if n <= |tag| {
        assert sh.Sidecar()[..n] == tag[..n];
        OneLine(tag[..n]);
      } else {
        assert sh.Sidecar()[..n] == tag + "\n";
        TagLine(tag);
      }
    }
  }

  lemma {:induction false} OneLine(text: string)
    requires '\n' !in text
    ensures Lines(text) == if text == "" then [] else [text]
  {
    if text != "" {
      assert forall i :: 0 <= i < |text| ==> text[i] in text;
      assert LineLen(text) == |text| && text[..|text|] == text;
    }
  }

  lemma {:induction false} QuietThread(root: string, s: State, step: Step)
    requires Inv(root, s) && Quiet(step) && Enabled(root, s, step)
    ensures ThreadOk(Apply(root, s, step), PcOf(Apply(root, s, step), step.t))
  {
    hide FileAt, TagAt, TempPath, TagOf, Inv, ShownTag;
    ThreadAt(root, s, step.t);
    if step.ReadSize? || step.ReadTag? || step.Unlock? || step.Open? {
      LookerThread(root, s, step);
    }
  }

  lemma {:induction false} LookerThread(root: string, s: State, step: Step)
    requires Inv(root, s) && Enabled(root, s, step) && (step.ReadSize? || step.ReadTag? || step.Unlock? || step.Open?)
    ensures ThreadOk(Apply(root, s, step), PcOf(Apply(root, s, step), step.t))
  {
    hide FileAt, TagAt, TempPath, TagOf, Inv, ShownTag, SidecarIs, ThreadOk, Apply;
    if step.Unlock? {
      UnlockedThread(root, s, step);
    } else if step.Open? {
      OpenedThread(root, s, step);
    } else {
      ReaderThread(root, s, step);
    }
  }

  lemma {:induction false} ReaderThread(root: string, s: State, step: Step)
    requires Inv(root, s) && Enabled(root, s, step) && (step.ReadSize? || step.ReadTag?)
    ensures ThreadOk(Apply(root, s, step), PcOf(Apply(root, s, step), step.t))
  {
    hide FileAt, TagAt, TempPath, TagOf, Inv, ShownTag, SidecarIs;
    var key := PcOf(s, step.t).key;
    ThreadAt(root, s, step.t);
    DiskAt(root, s, key);
    if key in s.shown {
      SidecarTag(s.fs, TagAt(root, key), s.shown[key]);
    }
  }

  lemma {:induction false} UnlockedThread(root: string, s: State, step: Step)
    requires Inv(root, s) && Enabled(root, s, step) && step.Unlock?
    ensures ThreadOk(Apply(root, s, step), PcOf(Apply(root, s, step), step.t))
  {
    hide FileAt, TagAt, TempPath, TagOf, Inv, ShownTag, SidecarIs, Settled, InvPast, InvLock, BodyOfOnePut;
    ThreadAt(root, s, step.t);
    if PcOf(s, step.t).LookDone? {
      DiskAt(root, s, PcOf(s, step.t).key);
      KeepsBodies(root, s, step);
    }
  }

  lemma {:induction false} OpenedThread(root: string, s: State, step: Step)
    requires Inv(root, s) && Enabled(root, s, step) && step.Open?
    ensures ThreadOk(Apply(root, s, step), PcOf(Apply(root, s, step), step.t))
  {
    hide FileAt, TagAt, TempPath, TagOf, Inv, ShownTag, SidecarIs, InvPast, InvLock, BodyOfOnePut;
    ThreadAt(root, s, step.t);
    DiskAt(root, s, PcOf(s, step.t).key);
    KeepsBodies(root, s, step);
  }

  lemma {:induction false} KeepsBodies(root: string, s: State, step: Step)
    requires Enabled(root, s, step)
    ensures forall k, body :: BodyOfOnePut(s, k, body) ==> BodyOfOnePut(Apply(root, s, step), k, body)
  {
    hide FileAt, TagAt, TempPath, TagOf;
  }

  /** Any file there is, mid-commit or not, is the whole body of one PUT. */
  lemma {:induction false} OpenedBody(root: string, s: State, k: Key)
    requires Inv(root, s) && ValidKey(k) && FileAt(root, k) in s.fs
    ensures BodyOfOnePut(s, k, s.fs[FileAt(root, k)])
  {
    hide FileAt, TagAt, Inv;
    DiskAt(root, s, k);
  }

  predicate SameTemp(pc: Pc, pc': Pc) {
    pc.HasTemp() && pc'.HasTemp() && pc.hex == pc'.hex && pc.up == pc'.up
  }

  predicate Locking(step: Step) {
    step.LockPut? || step.LockDel? || step.LockLook?
  }

  ghost predicate QuietlyMoved(s: State, s': State, t: nat) {
    s'.fs == s.fs && SameGhost(s, s') && Moved(s, s', t) && (PcOf(s', t).HasTemp() ==> SameTemp(PcOf(s, t), PcOf(s', t)))
  }

  lemma {:induction false} LockingFrame(root: string, s: State, step: Step)
    requires Locking(step) && Enabled(root, s, step)
    ensures QuietlyMoved(s, Apply(root, s, step), step.t) && (InvLock(s) ==> InvLock(Apply(root, s, step)))
  {
    hide FileAt, TagAt, TempPath, TagOf;
  }

  lemma {:induction false} HoldingFrame(root: string, s: State, step: Step)
    requires Quiet(step) && !Locking(step) && Enabled(root, s, step)
    ensures QuietlyMoved(s, Apply(root, s, step), step.t)
  {
    hide FileAt, TagAt, TempPath, TagOf, ValidKey;
  }

  lemma {:induction false} HoldingLock(root: string, s: State, step: Step)
    requires InvLock(s) && Quiet(step) && !Locking(step) && Enabled(root, s, step)
    ensures InvLock(Apply(root, s, step))
  {
    hide FileAt, TagAt, TempPath, TagOf, ValidKey;
  }

  lemma {:induction false} QuietFrame(root: string, s: State, step: Step)
    requires Quiet(step) && Enabled(root, s, step)
    ensures QuietlyMoved(s, Apply(root, s, step), step.t) && (InvLock(s) ==> InvLock(Apply(root, s, step)))
  {
    hide Apply, Enabled, QuietlyMoved, InvLock;
    if Locking(step) {
      LockingFrame(root, s, step);
    } else {
      HoldingFrame(root, s, step);
      if InvLock(s) {
        HoldingLock(root, s, step);
      }
    }
  }

  lemma {:induction false} QuietShape(root: string, s: State, step: Step)
    requires InvLock(s) && Quiet(step) && Enabled(root, s, step)
    ensures var s' := Apply(root, s, step);
      s'.fs == s.fs && SameGhost(s, s') && Moved(s, s', step.t) && InvLock(s')
      && (PcOf(s', step.t).HasTemp() ==> SameTemp(PcOf(s, step.t), PcOf(s', step.t)))
  {
    hide Apply, Enabled, SameGhost, InvLock, Moved;
    QuietFrame(root, s, step);
  }

  lemma {:induction false} QuietKeeps(root: string, s: State, step: Step)
    requires Inv(root, s) && Quiet(step) && Enabled(root, s, step)
    ensures Inv(root, Apply(root, s, step))
  {
    hide FileAt, TagAt, TempPath, TagOf, Settled, ThreadOk, Apply, Enabled;
    var s', t := Apply(root, s, step), step.t;
    QuietShape(root, s, step);
    QuietThread(root, s, step);
    KeepDisk(root, s, s');
    KeepThreads(s, s', t);
    if PcOf(s', t).HasTemp() {
      assert OwnTemp(root, s, t);
      forall u: nat ensures TempsDiffer(root, s', t, u) {
        assert TempsDiffer(root, s, t, u);
      }
    }
    KeepTemps(root, s, s', t);
  }

  /** A step on the thread's own temporary file. */
  predicate Private(step: Step) {
    step.Begin? || step.Slice? || step.Cut? || step.RenameFails?
  }

  function Hex(s: State, step: Step): string
    requires Private(step)
    requires step.Begin? || PcOf(s, step.t).HasTemp()
  {
    if step.Begin? then step.hex else PcOf(s, step.t).hex
  }

  lemma {:induction false} PrivateShape(root: string, s: State, step: Step)
    requires InvLock(s) && Private(step) && Enabled(root, s, step)
    ensures var s' := Apply(root, s, step);
      SameGhost(s, s') && Moved(s, s', step.t) && InvLock(s') && OnlyIn(s.fs, s'.fs, {TempPath(root, Hex(s, step))})
      && (PcOf(s', step.t).HasTemp() ==> PcOf(s', step.t).hex == Hex(s, step) && (step.Begin? || PcOf(s, step.t).HasTemp()))
      && (ThreadOk(s, PcOf(s, step.t)) ==> ThreadOk(s', PcOf(s', step.t)))
  {
    hide FileAt, TagAt, TempPath, TagOf;
  }

  lemma {:induction false} PrivateTemps(root: string, s: State, step: Step)
    requires InvLock(s) && InvTemps(root, s) && Private(step) && Enabled(root, s, step)
    ensures InvTemps(root, Apply(root, s, step))
  {
    hide FileAt, TagAt, TempPath, TagOf;
    var s', t := Apply(root, s, step), step.t;
    PrivateShape(root, s, step);
    assert OwnTemp(root, s, t);
    forall u: nat | u != t && PcOf(s, u).HasTemp() ensures TempPath(root, PcOf(s, u).hex) != TempPath(root, Hex(s, step)) {
      assert OwnTemp(root, s, u) && TempsDiffer(root, s, t, u);
    }
    KeepTemps(root, s, s', t);
  }

  lemma {:induction false} PrivateKeeps(root: string, s: State, step: Step)
    requires Inv(root, s) && Private(step) && Enabled(root, s, step)
    ensures Inv(root, Apply(root, s, step)) && SameFiles(root, s.fs, Apply(root, s, step).fs)
  {
    hide FileAt, TagAt, TempPath, TagOf, Settled, SameFiles, OnlyIn, Agree, ThreadOk;
    var s', t := Apply(root, s, step), step.t;
    ThreadAt(root, s, t);
    PrivateShape(root, s, step);
    PrivateTemps(root, s, step);
    TempOnly(root, s.fs, s'.fs, Hex(s, step));
    KeepDisk(root, s, s');
    KeepThreads(s, s', t);
  }

  /** A step of the mutex holder on what an account holds. */
  predicate Mutation(step: Step) {
    step.Rename? || step.Truncate? || step.WriteTag? || step.DropFile? || step.DropTag?
  }

  function KeyOf(s: State, step: Step): Key
    requires Mutation(step)
    requires PcOf(s, step.t).Holding()
  {
    var pc := PcOf(s, step.t);
    if pc.PutHeld? || pc.PutMoved? || pc.PutTruncated? || pc.PutDone? then pc.up.key else pc.key
  }

  /** All that the rest of the system can see of such a step. */
  ghost predicate MutationFrame(root: string, s: State, s': State, t: nat, key: Key) {
    && ValidKey(key) && Moved(s, s', t) && InvLock(s') && s'.lock == Some(t) && s.lock == Some(t)
    && SameElsewhere(root, s.fs, s'.fs, key)
    && (forall k :: k != key ==> (k in s.shown <==> k in s'.shown) && Version(s', k) == Version(s, k))
    && (forall k :: k != key && k in s.shown ==> s'.shown[k] == s.shown[k])
    && s.commits <= s'.commits && (forall u :: u in s'.commits ==> UpOk(u) && |u.body| == u.size)
    && Version(s, key) <= Version(s', key)
    && (Version(s, key) == Version(s', key) && key in s.shown ==> key in s'.shown && s'.shown[key].up == s.shown[key].up)
  }

  /** The paths the step may change. */
  function PathsOf(root: string, s: State, step: Step): set<string>
    requires Mutation(step) && Enabled(root, s, step)
  {
    {FileAt(root, KeyOf(s, step)), TagAt(root, KeyOf(s, step))} + (if step.Rename? then {TempPath(root, PcOf(s, step.t).hex)} else {})
  }

  lemma {:induction false} MutationOnly(root: string, s: State, step: Step)
    requires Mutation(step) && Enabled(root, s, step)
    ensures OnlyIn(s.fs, Apply(root, s, step).fs, PathsOf(root, s, step))
  {
    hide FileAt, TagAt, TempPath, TagOf;
  }

  lemma {:induction false} MutationPaths(root: string, s: State, step: Step)
    requires Inv(root, s) && Mutation(step) && Enabled(root, s, step)
    ensures ValidKey(KeyOf(s, step))
    ensures SameElsewhere(root, s.fs, Apply(root, s, step).fs, KeyOf(s, step))
    ensures forall u: nat :: u != step.t && PcOf(s, u).HasTemp() ==> Agree(s.fs, Apply(root, s, step).fs, TempPath(root, PcOf(s, u).hex))
  {
    hide FileAt, TagAt, TempPath, TagOf, InvDisk, InvLock, SameElsewhere, ValidKey, Apply;
    var s', t, key := Apply(root, s, step), step.t, KeyOf(s, step);
    assert ThreadOk(s, PcOf(s, t));
    assert ValidKey(key);
    var paths := PathsOf(root, s, step);
    MutationOnly(root, s, step);
    KeyOnly(root, s.fs, s'.fs, key, paths);
    forall u: nat | u != t && PcOf(s, u).HasTemp() ensures Agree(s.fs, s'.fs, TempPath(root, PcOf(s, u).hex)) {
      assert TempsDiffer(root, s, t, u);
      KeyApart(root, key, PcOf(s, u).hex);
    }
  }

  lemma {:induction false} MutationLock(root: string, s: State, step: Step)
    requires InvLock(s) && Mutation(step) && Enabled(root, s, step)
    ensures var s' := Apply(root, s, step);
      Moved(s, s', step.t) && InvLock(s') && s'.lock == Some(step.t) && s.lock == Some(step.t)
  {
    hide FileAt, TagAt, TempPath, TagOf;
  }

  /** Names other than `key` show what they did, and `key` a PUT that was committed. */
  ghost predicate MapKept(s: State, s': State, key: Key) {
    (forall k :: k != key ==> (k in s.shown <==> k in s'.shown) && Version(s', k) == Version(s, k))
    && (forall k :: k != key && k in s.shown ==> s'.shown[k] == s.shown[k])
    && s.commits <= s'.commits && (forall u :: u in s'.commits ==> UpOk(u) && |u.body| == u.size)
    && Version(s, key) <= Version(s', key)
    && (Version(s, key) == Version(s', key) && key in s.shown ==> key in s'.shown && s'.shown[key].up == s.shown[key].up)
    && (key in s'.shown ==> s'.shown[key].up in s'.commits && s'.shown[key].up.key == key)
  }

  lemma {:induction false} MutationMap(root: string, s: State, step: Step)
    requires InvPast(s) && Mutation(step) && Enabled(root, s, step) && ThreadOk(s, PcOf(s, step.t))
    ensures MapKept(s, Apply(root, s, step), KeyOf(s, step))
  {
    hide Apply, MapKept, InvPast, ThreadOk;
    if step.Rename? {
      RenameMap(root, s, step);
    } else if step.DropFile? {
      DropMap(root, s, step);
    } else {
      TagMap(root, s, step);
    }
  }

  lemma {:induction false} RenameMap(root: string, s: State, step: Step)
    requires InvPast(s) && step.Rename? && Enabled(root, s, step) && ThreadOk(s, PcOf(s, step.t))
    ensures MapKept(s, Apply(root, s, step), KeyOf(s, step))
  {
    hide FileAt, TagAt, TempPath, TagOf, ValidKey;
  }

  lemma {:induction false} DropMap(root: string, s: State, step: Step)
    requires InvPast(s) && step.DropFile? && Enabled(root, s, step)
    ensures MapKept(s, Apply(root, s, step), KeyOf(s, step))
  {
    hide FileAt, TagAt, TempPath, TagOf, ValidKey, UpOk;
  }

  lemma {:induction false} TagMap(root: string, s: State, step: Step)
    requires InvPast(s) && Mutation(step) && !step.Rename? && !step.DropFile? && Enabled(root, s, step) && ThreadOk(s, PcOf(s, step.t))
    ensures MapKept(s, Apply(root, s, step), KeyOf(s, step))
  {
    hide FileAt, TagAt, TempPath, TagOf, ValidKey, UpOk, MapKept;
    var s', key := Apply(root, s, step), KeyOf(s, step);
    assert s'.versions == s.versions && s'.commits == s.commits;
    if step.DropTag? {
      SameMap(s, s', key);
    } else {
      assert s'.shown == s.shown[key := s'.shown[key]] && s'.shown[key].up == PcOf(s, step.t).up;
      assert ShowsOwn(s, PcOf(s, step.t).up);
      SameMap(s, s', key);
    }
  }

  lemma {:induction false} SameMap(s: State, s': State, key: Key)
    requires InvPast(s) && s'.versions == s.versions && s'.commits == s.commits
    requires s'.shown == s.shown || (key in s.shown && key in s'.shown && s'.shown == s.shown[key := s'.shown[key]] && s'.shown[key].up == s.shown[key].up)
    ensures MapKept(s, s', key)
  {
    hide UpOk;
  }

  lemma {:induction false} MutationShape(root: string, s: State, step: Step)
    requires Inv(root, s) && Mutation(step) && Enabled(root, s, step)
    ensures MutationFrame(root, s, Apply(root, s, step), step.t, KeyOf(s, step)) && InvPast(Apply(root, s, step))
  {
    hide FileAt, TagAt, SameElsewhere, ValidKey, Moved, Apply, Agree, InvDisk, InvTemps, UpOk;
    ThreadAt(root, s, step.t);
    MutationLock(root, s, step);
    MutationPaths(root, s, step);
    MutationMap(root, s, step);
  }

  /** What the step leaves in its own thread. */
  lemma {:induction false} MutationThread(root: string, s: State, step: Step)
    requires Inv(root, s) && Mutation(step) && Enabled(root, s, step)
    ensures var s' := Apply(root, s, step); ThreadOk(s', PcOf(s', step.t)) && !PcOf(s', step.t).HasTemp()
  {
    hide FileAt, TagAt, TempPath, ValidKey, TagOf, Inv;
    ThreadAt(root, s, step.t);
  }

  /** What the step leaves at its own key. */
  lemma {:induction false} MutationOwn(root: string, s: State, step: Step)
    requires Inv(root, s) && Mutation(step) && Enabled(root, s, step)
    ensures Settled(root, Apply(root, s, step), KeyOf(s, step))
  {
    hide FileAt, TagAt, TempPath, ValidKey, Inv, Lines, Apply, Settled, ThreadOk, InvPast, InvLock;
    ThreadAt(root, s, step.t);
    LockAt(root, s);
    KeyOfValid(root, s, step);
    KeyPaths(root, KeyOf(s, step), KeyOf(s, step));
    if step.Rename? {
      RenameOwn(root, s, step);
    } else {
      DiskAt(root, s, KeyOf(s, step));
      EditOwn(root, s, step);
    }
  }

  lemma {:induction false} KeyOfValid(root: string, s: State, step: Step)
    requires InvPast(s) && Mutation(step) && Enabled(root, s, step) && ThreadOk(s, PcOf(s, step.t))
    ensures ValidKey(KeyOf(s, step))
  {
    hide ValidKey;
  }

  lemma {:induction false} RenameOwn(root: string, s: State, step: Step)
    requires Inv(root, s) && step.Rename? && Enabled(root, s, step)
    requires ValidKey(KeyOf(s, step)) && FileAt(root, KeyOf(s, step)) != TagAt(root, KeyOf(s, step))
    ensures Settled(root, Apply(root, s, step), KeyOf(s, step))
  {
    hide FileAt, TagAt, TempPath, ValidKey, Inv, Lines;
    TempAt(root, s, step.t);
    KeyApart(root, KeyOf(s, step), PcOf(s, step.t).hex);
  }

  lemma {:induction false} EditOwn(root: string, s: State, step: Step)
    requires Mutation(step) && !step.Rename? && Enabled(root, s, step) && ThreadOk(s, PcOf(s, step.t))
    requires ValidKey(KeyOf(s, step)) && FileAt(root, KeyOf(s, step)) != TagAt(root, KeyOf(s, step))
    requires Settled(root, s, KeyOf(s, step))
    ensures Settled(root, Apply(root, s, step), KeyOf(s, step))
  {
    hide FileAt, TagAt, TempPath, ValidKey, Lines;
  }

  lemma {:induction false} OtherThread(root: string, s: State, s': State, t: nat, key: Key, pc: Pc)
    requires MutationFrame(root, s, s', t, key) && ThreadOk(s, pc) && !pc.Holding()
    ensures ThreadOk(s', pc)
  {
    hide FileAt, TagAt, ValidKey, InvLock, Moved, SameElsewhere;
  }

  lemma {:induction false} MutationKeeps(root: string, s: State, step: Step)
    requires Inv(root, s) && Mutation(step) && Enabled(root, s, step)
    ensures Inv(root, Apply(root, s, step))
  {
    hide FileAt, TagAt, TempPath, TagOf, ThreadOk, Apply, ValidKey, Agree, Settled;
    var s', t, key := Apply(root, s, step), step.t, KeyOf(s, step);
    MutationShape(root, s, step);
    MutationPaths(root, s, step);
    MutationThread(root, s, step);
    MutationOwn(root, s, step);
    KeepTemps(root, s, s', t);
    forall u: nat ensures ThreadOk(s', PcOf(s', u)) {
      if u != t {
        OtherThread(root, s, s', t, key, PcOf(s, u));
      }
    }
    forall k | ValidKey(k) ensures Settled(root, s', k) {
      if k != key {
        KeepSettled(root, s, s', k);
      }
    }
  }

  /** A stop, wherever it falls, leaves the tree as it was, less the partial
      transfers that the next start clears away. */
  lemma {:induction false} StopKeeps(root: string, s: State)
    requires Inv(root, s)
    ensures Inv(root, Apply(root, s, Stop)) && SameFiles(root, s.fs, Apply(root, s, Stop).fs)
  {
    hide FileAt, TagAt, TempPath, TagOf, ValidKey, IsTemp, Settled;
    var s' := Apply(root, s, Stop);
    forall k | ValidKey(k) ensures Agree(s.fs, s'.fs, FileAt(root, k)) && Agree(s.fs, s'.fs, TagAt(root, k)) {
      KeyApart(root, k, "");
    }
    KeepDisk(root, s, s');
  }

  lemma {:induction false} StepKeeps(root: string, s: State, step: Step)
    requires Inv(root, s) && Enabled(root, s, step)
    ensures Inv(root, Apply(root, s, step))
  {
    hide Inv, Enabled, Apply;
    if Quiet(step) {
      QuietKeeps(root, s, step);
    } else if Private(step) {
      PrivateKeeps(root, s, step);
    } else if Mutation(step) {
      MutationKeeps(root, s, step);
    } else {
      StopKeeps(root, s);
    }
  }

  lemma {:induction false} RunKeeps(root: string, clean: bool, s: State, steps: seq<Step>, s': State)
    requires Inv(root, s) && Run(root, clean, s, steps, s')
    ensures Inv(root, s')
    decreases |steps|
  {
    hide Inv, Enabled, Apply, Fault;
    if steps != [] {
      StepKeeps(root, s, steps[0]);
      RunKeeps(root, clean, Apply(root, s, steps[0]), steps[1..], s');
    }
  }

  // ----- what every interleaving keeps -----

  ghost predicate Reachable(root: string, clean: bool, s: State) {
    exists steps :: Run(root, clean, Start(), steps, s)
  }

  lemma {:induction false} StartInv(root: string)
    ensures Inv(root, Start()) && InvClean(root, Start())
  {
  }

  lemma {:induction false} ReachableInv(root: string, clean: bool, s: State)
    requires Reachable(root, clean, s)
    ensures Inv(root, s)
  {
    hide Inv, Enabled, Apply, Run;
    var steps :| Run(root, clean, Start(), steps, s);
    StartInv(root);
    RunKeeps(root, clean, Start(), steps, s);
  }

  lemma {:induction false} ShownView(root: string, s: State, k: Key)
    requires Inv(root, s) && ValidKey(k)
    ensures View(s.fs, root, k.user, k.name)
      == if k in s.shown then Some(Item(s.shown[k].up.body, ShownTag(s.shown[k]))) else None
    ensures k in s.shown ==> s.shown[k].up in s.commits && s.shown[k].up.key == k && |s.shown[k].up.body| == s.shown[k].up.size
  {
    hide TagOf, InvLock, InvTemps, InvThreads, ShownTag;
    assert Settled(root, s, k);
    FileShape(root, k.user, k.name);
    if k in s.shown {
      SidecarTag(s.fs, TagAt(root, k), s.shown[k]);
    }
  }

  /** In every run, whatever fails and wherever the server stops: a visible body is
      the whole body of one PUT of that name, the last one renamed there. The tag
      beside it is that PUT's tag exactly when the line got as far as the tag is
      long, or the tag file was never opened and held the same tag before. */
  lemma {:induction false} ShownExactly(root: string, s: State, k: Key)
    requires Reachable(root, false, s) && ValidKey(k)
    ensures match View(s.fs, root, k.user, k.name)
      case None => k !in s.shown
      case Some(item) =>
        k in s.shown
        && var sh := s.shown[k];
           sh.up in s.commits && sh.up.key == k && item.body == sh.up.body && |item.body| == sh.up.size
           && (item.tag == sh.up.tag <==>
                 match sh.fate case Untouched(before) => before == sh.up.tag case Kept(n) => n >= |sh.up.tag|)
  {
    hide Inv, View, Reachable;
    ReachableInv(root, false, s);
    ShownView(root, s, k);
  }

  // ----- runs without faults -----

  lemma {:induction false} TornSame(root: string, s: State, step: Step, k: Key)
    requires InvLock(s) && Enabled(root, s, step) && !Fault(s, step) && !Mutation(step)
    ensures TornAt(s, k) && !step.EndTag? ==> TornAt(Apply(root, s, step), k)
    ensures TornAt(s, k) && step.EndTag? ==> k == PcOf(s, step.t).up.key
  {
    hide FileAt, TagAt, TempPath, TagOf;
  }

  lemma {:induction false} CalmClean(root: string, s: State, step: Step)
    requires Inv(root, s) && InvClean(root, s) && Enabled(root, s, step) && !Fault(s, step) && !Mutation(step)
    requires SameFiles(root, s.fs, Apply(root, s, step).fs) && SameGhost(s, Apply(root, s, step))
    ensures InvClean(root, Apply(root, s, step))
  {
    hide FileAt, TagAt, TempPath, TagOf, Apply, Inv, TornAt;
    var s' := Apply(root, s, step);
    assert InvLock(s) by { LockAt(root, s); }
    forall k | ValidKey(k) ensures CleanAt(root, s', k) {
      TornSame(root, s, step, k);
      assert CleanAt(root, s, k);
      if step.EndTag? {
        ThreadAt(root, s, step.t);
      }
    }
  }

  lemma {:induction false} LockAt(root: string, s: State)
    requires Inv(root, s)
    ensures InvLock(s) && InvPast(s)
  {
  }

  /** Whose critical section a mutation is part of, before and after it. */
  lemma {:induction false} MutationTorn(root: string, s: State, step: Step, k: Key)
    requires InvLock(s) && Mutation(step) && Enabled(root, s, step)
    ensures TornAt(s, k) ==> k == KeyOf(s, step)
    ensures !step.DropTag? ==> TornAt(Apply(root, s, step), KeyOf(s, step))
  {
    hide FileAt, TagAt, TempPath, TagOf;
  }

  lemma {:induction false} MutationClean(root: string, s: State, step: Step)
    requires Inv(root, s) && InvClean(root, s) && Mutation(step) && Enabled(root, s, step)
    ensures InvClean(root, Apply(root, s, step))
  {
    hide FileAt, TagAt, TempPath, TagOf, Apply, Inv, TornAt, ValidKey;
    var s', key := Apply(root, s, step), KeyOf(s, step);
    LockAt(root, s);
    MutationShape(root, s, step);
    forall k | ValidKey(k) ensures CleanAt(root, s', k) {
      MutationTorn(root, s, step, k);
      assert CleanAt(root, s, k);
      if k == key && step.DropTag? {
        DroppedBoth(root, s, step);
      }
    }
  }

  lemma {:induction false} DroppedBoth(root: string, s: State, step: Step)
    requires Inv(root, s) && step.DropTag? && Enabled(root, s, step)
    ensures KeyOf(s, step) !in Apply(root, s, step).shown && TagAt(root, KeyOf(s, step)) !in Apply(root, s, step).fs
  {
    hide FileAt, TagAt, Inv;
    ThreadAt(root, s, step.t);
  }

  lemma {:induction false} CleanKeeps(root: string, s: State, step: Step)
    requires Inv(root, s) && InvClean(root, s) && Enabled(root, s, step) && !Fault(s, step)
    ensures InvClean(root, Apply(root, s, step))
  {
    hide Inv, InvClean, Enabled, Apply, Fault;
    if Mutation(step) {
      MutationClean(root, s, step);
    } else {
      LockAt(root, s);
      CalmShape(root, s, step);
      CalmClean(root, s, step);
    }
  }

  lemma {:induction false} CalmShape(root: string, s: State, step: Step)
    requires Inv(root, s) && Enabled(root, s, step) && !Mutation(step)
    ensures SameFiles(root, s.fs, Apply(root, s, step).fs) && SameGhost(s, Apply(root, s, step))
  {
    hide Inv, Enabled, FileAt, TagAt, TempPath, TagOf;
    LockAt(root, s);
    if Quiet(step) {
      QuietShape(root, s, step);
    } else if Private(step) {
      PrivateKeeps(root, s, step);
      PrivateShape(root, s, step);
    } else {
      StopKeeps(root, s);
    }
  }

  lemma {:induction false} CleanRun(root: string, s: State, steps: seq<Step>, s': State)
    requires Inv(root, s) && InvClean(root, s) && Run(root, true, s, steps, s')
    ensures Inv(root, s') && InvClean(root, s')
    decreases |steps|
  {
    hide Inv, InvClean, Enabled, Apply, Fault;
    if steps != [] {
      StepKeeps(root, s, steps[0]);
      CleanKeeps(root, s, steps[0]);
      CleanRun(root, Apply(root, s, steps[0]), steps[1..], s');
    }
  }

  ghost predicate FromOnePut(s: State, k: Key, item: Item) {
    exists u :: u in s.commits && u.key == k && u.tag == item.tag && u.body == item.body && |u.body| == u.size
  }

  /** Without faults, in every interleaving, at every moment: a name no thread is in
      the middle of committing or deleting shows the complete body of one PUT with
      that same PUT's tag, or neither a file nor a tag. */
  lemma {:induction false} EveryInterleavingIsConsistent(root: string, s: State, k: Key)
    requires Reachable(root, true, s) && ValidKey(k) && !TornAt(s, k)
    ensures match View(s.fs, root, k.user, k.name)
      case Some(item) => FromOnePut(s, k, item)
      case None => TagAt(root, k) !in s.fs
  {
    hide Run, Inv, View, TornAt, TagAt;
    var steps :| Run(root, true, Start(), steps, s);
    StartInv(root);
    CleanRun(root, Start(), steps, s);
    ShownView(root, s, k);
    assert CleanAt(root, s, k);
  }

  /** What a look-up finds under the mutex, and so what STAT answers and GETFILE
      announces, is what is visible there; and while it holds the mutex no commit or
      deletion is half done, of that name or any other. */
  lemma {:induction false} LookupsAreConsistent(root: string, s: State, t: nat)
    requires Reachable(root, false, s) && PcOf(s, t).LookDone?
    ensures var pc := PcOf(s, t);
      pc.info == (match View(s.fs, root, pc.key.user, pc.key.name) case None => None case Some(item) => Some((|item.body|, item.tag)))
      && (pc.info.Some? ==> exists u :: u in s.commits && u.key == pc.key && u.size == |u.body| == pc.info.value.0)
    ensures forall k :: !TornAt(s, k)
  {
    hide Run, Inv, View, Reachable;
    ReachableInv(root, false, s);
    ThreadAt(root, s, t);
    LockAt(root, s);
    assert s.lock == Some(t);
    ShownView(root, s, PcOf(s, t).key);
  }

  /** Without faults it is size and tag of the same PUT. */
  lemma {:induction false} CleanLookups(root: string, s: State, t: nat)
    requires Reachable(root, true, s) && PcOf(s, t).LookDone? && PcOf(s, t).info.Some?
    ensures var pc := PcOf(s, t);
      exists u :: u in s.commits && u.key == pc.key && u.size == |u.body| == pc.info.value.0 && u.tag == pc.info.value.1
  {
    hide Inv, View, Reachable, TornAt, TagAt;
    CleanIsReachable(root, s);
    LookupsAreConsistent(root, s, t);
    ReachableInv(root, false, s);
    ThreadAt(root, s, t);
    EveryInterleavingIsConsistent(root, s, PcOf(s, t).key);
  }

  // ----- GETFILE: looked up under the mutex, opened without it -----

  /** No commit or deletion of k begins along the run. */
  ghost predicate Undisturbed(root: string, s: State, steps: seq<Step>, k: Key)
    decreases |steps|
  {
    steps == [] ||
    (Enabled(root, s, steps[0]) && !Disturbs(s, steps[0], k) && Undisturbed(root, Apply(root, s, steps[0]), steps[1..], k))
  }

  predicate Disturbs(s: State, step: Step, k: Key) {
    (step.Rename? && PcOf(s, step.t).PutHeld? && PcOf(s, step.t).up.key == k)
    || (step.DropFile? && PcOf(s, step.t).DelHeld? && PcOf(s, step.t).key == k)
  }

  lemma {:induction false} VersionStep(root: string, s: State, step: Step, k: Key)
    requires Enabled(root, s, step)
    ensures Version(Apply(root, s, step), k) == Version(s, k) + (if Disturbs(s, step, k) then 1 else 0)
  {
    hide FileAt, TagAt, TempPath, TagOf;
  }

  lemma {:induction false} VersionGrows(root: string, clean: bool, s: State, steps: seq<Step>, s': State, k: Key)
    requires Run(root, clean, s, steps, s')
    ensures Version(s', k) >= Version(s, k)
    decreases |steps|
  {
    hide Apply, Enabled, Disturbs, Version, Fault;
    if steps != [] {
      VersionStep(root, s, steps[0], k);
      VersionGrows(root, clean, Apply(root, s, steps[0]), steps[1..], s', k);
    }
  }

  /** Over any run, the version of a name stands still exactly when no commit or
      deletion of it begins. */
  lemma {:induction false} VersionCounts(root: string, clean: bool, s: State, steps: seq<Step>, s': State, k: Key)
    requires Run(root, clean, s, steps, s')
    ensures Version(s', k) == Version(s, k) <==> Undisturbed(root, s, steps, k)
    decreases |steps|
  {
    hide Apply, Enabled, Disturbs, Version, Fault;
    if steps != [] {
      VersionStep(root, s, steps[0], k);
      VersionGrows(root, clean, Apply(root, s, steps[0]), steps[1..], s', k);
      VersionCounts(root, clean, Apply(root, s, steps[0]), steps[1..], s', k);
    }
  }

  /** What GETFILE sends after announcing `size`; None is a dropped connection. */
  function Sent(content: Option<string>, size: nat): Option<string> {
    if content.Some? && size <= |content.value| then Some(content.value[..size]) else None
  }

  /** What thread t would send if it opened the file now. */
  function Reply(root: string, s: State, t: nat): Option<string>
    requires PcOf(s, t).Looked?
  {
    var o := PcOf(Apply(root, s, Open(t)), t);
    Sent(o.content, o.size)
  }

  /** Whatever happens between look-up and opening: a GETFILE sends the body it
      announced exactly when the file then begins with it, and drops the connection
      exactly when there is no file or a shorter one. */
  lemma {:induction false} GetIsExactIff(root: string, s: State, t: nat)
    requires Reachable(root, false, s) && PcOf(s, t).Looked?
    ensures var pc := PcOf(s, t);
      var now := View(s.fs, root, pc.key.user, pc.key.name);
      BodyOfOnePut(s, pc.key, pc.seen)
      && (Reply(root, s, t) == Some(pc.seen) <==> now.Some? && pc.seen <= now.value.body)
      && (Reply(root, s, t) == None <==> now.None? || |now.value.body| < |pc.seen|)
  {
    hide Run, Inv, Reachable, BodyOfOnePut;
    ReachableInv(root, false, s);
    ThreadAt(root, s, t);
    var pc := PcOf(s, t);
    if FileAt(root, pc.key) in s.fs {
      var body := s.fs[FileAt(root, pc.key)];
      assert pc.seen <= body <==> |pc.seen| <= |body| && body[..|pc.seen|] == pc.seen;
    }
  }

  /** In particular, when no commit or deletion of the name begins in between. */
  lemma {:induction false} GetIsExact(root: string, s: State, t: nat, steps: seq<Step>, s': State)
    requires Reachable(root, false, s) && PcOf(s, t).Looked? && PcOf(s, t).version == Version(s, PcOf(s, t).key)
    requires Run(root, false, s, steps, s') && Undisturbed(root, s, steps, PcOf(s, t).key) && PcOf(s', t) == PcOf(s, t)
    ensures Reply(root, s', t) == Some(PcOf(s, t).seen) && |PcOf(s, t).seen| == PcOf(s, t).size
  {
    hide Inv, FileAt, BodyOfOnePut, Run, Undisturbed, Reachable;
    ReachableInv(root, false, s);
    RunKeeps(root, false, s, steps, s');
    ThreadAt(root, s', t);
    VersionCounts(root, false, s, steps, s', PcOf(s, t).key);
    DiskAt(root, s', PcOf(s, t).key);
    var body := PcOf(s, t).seen;
    assert body[..|body|] == body;
  }

  /** In every case what is sent begins the body of one PUT of that name, and never
      mixes two. */
  lemma {:induction false} GetNeverMixes(root: string, s: State, t: nat)
    requires Reachable(root, false, s) && PcOf(s, t).Opened? && Sent(PcOf(s, t).content, PcOf(s, t).size).Some?
    ensures exists u :: (u in s.commits && u.key == PcOf(s, t).key && |u.body| == u.size
      && Sent(PcOf(s, t).content, PcOf(s, t).size).value <= u.body)
  {
    hide Inv, Run, Reachable;
    ReachableInv(root, false, s);
    ThreadAt(root, s, t);
    var pc := PcOf(s, t);
    var u :| u in s.commits && u.key == pc.key && u.body == pc.content.value && |u.body| == u.size;
    assert pc.content.value[..pc.size] <= u.body;
  }

  /** A PUT renamed into the gap is what the GETFILE opens. */
  lemma {:induction false} OvertakenGet(root: string, s: State, t: nat, u: nat)
    requires Reachable(root, false, s) && PcOf(s, t).Looked? && PcOf(s, u).PutHeld? && PcOf(s, u).up.key == PcOf(s, t).key
    ensures PcOf(Apply(root, s, Rename(u)), t).Looked?
    ensures Reply(root, Apply(root, s, Rename(u)), t) == Sent(Some(PcOf(s, u).up.body), PcOf(s, t).size)
  {
    hide Inv, Reachable, FileAt, TempPath;
    ReachableInv(root, false, s);
    TempAt(root, s, u);
  }

  /** A deletion in the gap drops the connection. */
  lemma {:induction false} DeletedGet(root: string, s: State, t: nat, u: nat)
    requires PcOf(s, t).Looked? && PcOf(s, u).DelHeld? && PcOf(s, u).key == PcOf(s, t).key
    ensures PcOf(Apply(root, s, DropFile(u)), t).Looked?
    ensures Reply(root, Apply(root, s, DropFile(u)), t) == None
  {
    hide FileAt, TagAt, TempPath;
  }

  // ----- the gap is reached -----

  lemma {:induction false} RunAppend(root: string, clean: bool, s: State, steps: seq<Step>, s': State, step: Step)
    requires Run(root, clean, s, steps, s') && Enabled(root, s', step) && (clean ==> !Fault(s', step))
    ensures Run(root, clean, s, steps + [step], Apply(root, s', step))
    decreases |steps|
  {
    hide Enabled, Apply, Fault;
    if steps == [] {
      assert [step][1..] == [] && steps + [step] == [step];
      assert Run(root, clean, Apply(root, s', step), [], Apply(root, s', step));
    } else {
      RunAppend(root, clean, Apply(root, s, steps[0]), steps[1..], s', step);
      assert (steps + [step])[1..] == steps[1..] + [step];
    }
  }

  lemma {:induction false} Extend(root: string, s: State, step: Step)
    requires Reachable(root, true, s) && Enabled(root, s, step) && !Fault(s, step)
    ensures Reachable(root, true, Apply(root, s, step))
  {
    hide Enabled, Apply, Fault, Run;
    var steps :| Run(root, true, Start(), steps, s);
    RunAppend(root, true, Start(), steps, s, step);
  }

  lemma {:induction false} CleanIsRun(root: string, s: State, steps: seq<Step>, s': State)
    requires Run(root, true, s, steps, s')
    ensures Run(root, false, s, steps, s')
    decreases |steps|
  {
    hide Enabled, Apply, Fault;
    if steps != [] {
      CleanIsRun(root, Apply(root, s, steps[0]), steps[1..], s');
    }
  }

  lemma {:induction false} CleanIsReachable(root: string, s: State)
    requires Reachable(root, true, s)
    ensures Reachable(root, false, s)
  {
    hide Run;
    var steps :| Run(root, true, Start(), steps, s);
    CleanIsRun(root, Start(), steps, s);
  }

  /** An upload is received and takes the mutex. */
  lemma {:induction false} ReachHeld(root: string, s: State, u: nat, key: Key, tag: string, body: string, hex: string) returns (s': State)
    requires Reachable(root, true, s) && s.lock.None? && PcOf(s, u).Idle? && ValidKey(key) && '\n' !in tag && TempPath(root, hex) !in s.fs
    ensures Reachable(root, true, s') && PcOf(s', u) == PutHeld(Upload(key, tag, |body|, body), hex)
    ensures Moved(s, s', u) && SameGhost(s, s') && s'.fs == s.fs[TempPath(root, hex) := body]
  {
    hide Reachable, TempPath, FileAt, TagAt, ValidKey;
    var s1 := Apply(root, s, Begin(u, key, tag, |body|, hex));
    Extend(root, s, Begin(u, key, tag, |body|, hex));
    var s2 := Apply(root, s1, Slice(u, body));
    Extend(root, s1, Slice(u, body));
    assert "" + body == body;
    s' := Apply(root, s2, LockPut(u));
    Extend(root, s2, LockPut(u));
  }

  /** Its commit, then the end of its critical section. */
  lemma {:induction false} ReachTruncated(root: string, s: State, u: nat) returns (s': State)
    requires Reachable(root, true, s) && PcOf(s, u).PutHeld?
    ensures var up := PcOf(s, u).up;
      Reachable(root, true, s') && PcOf(s', u) == PutTruncated(up) && Moved(s, s', u)
      && up.key in s'.shown && s'.shown[up.key].up == up && TempPath(root, PcOf(s, u).hex) !in s'.fs
  {
    hide Reachable, TempPath, FileAt, TagAt, ValidKey, TagOf;
    HeldKey(root, s, u);
    KeyApart(root, PcOf(s, u).up.key, PcOf(s, u).hex);
    var s1 := Apply(root, s, Rename(u));
    Extend(root, s, Rename(u));
    s' := Apply(root, s1, Truncate(u));
    Extend(root, s1, Truncate(u));
  }

  lemma {:induction false} ReachUnlocked(root: string, s: State, u: nat, hex: string) returns (s': State)
    requires Reachable(root, true, s) && PcOf(s, u).PutTruncated? && ValidKey(PcOf(s, u).up.key) && TempPath(root, hex) !in s.fs
    ensures var up := PcOf(s, u).up;
      Reachable(root, true, s') && s'.lock.None? && PcOf(s', u).Idle? && Moved(s, s', u)
      && up.key in s'.shown && s'.shown[up.key].up == up && TempPath(root, hex) !in s'.fs
  {
    hide Reachable, TempPath, FileAt, TagAt, ValidKey, TagOf;
    var up := PcOf(s, u).up;
    KeyApart(root, up.key, hex);
    var s1 := Apply(root, s, WriteTag(u, |up.tag| + 1));
    Extend(root, s, WriteTag(u, |up.tag| + 1));
    var s2 := Apply(root, s1, EndTag(u));
    Extend(root, s1, EndTag(u));
    s' := Apply(root, s2, Unlock(u));
    Extend(root, s2, Unlock(u));
  }

  lemma {:induction false} HeldKey(root: string, s: State, u: nat)
    requires Reachable(root, true, s) && PcOf(s, u).PutHeld?
    ensures ValidKey(PcOf(s, u).up.key)
  {
    hide Inv, Reachable;
    ReachableInv(root, true, s);
    ThreadAt(root, s, u);
  }

  /** A GETFILE looks the name up, and lets go of the mutex. */
  lemma {:induction false} ReachLookDone(root: string, s: State, t: nat, key: Key) returns (s': State)
    requires Reachable(root, true, s) && s.lock.None? && PcOf(s, t).Idle? && ValidKey(key)
    ensures Reachable(root, true, s') && PcOf(s', t).LookDone? && PcOf(s', t).key == key && PcOf(s', t).get
    ensures Moved(s, s', t) && s'.fs == s.fs && SameGhost(s, s')
  {
    hide Reachable, FileAt, TagAt, ValidKey, TagOf;
    var s1 := Apply(root, s, LockLook(t, key, true));
    Extend(root, s, LockLook(t, key, true));
    var s2 := Apply(root, s1, ReadSize(t));
    Extend(root, s1, ReadSize(t));
    s' := Apply(root, s2, ReadTag(t));
    Extend(root, s2, ReadTag(t));
  }

  lemma {:induction false} ReachLooked(root: string, s: State, t: nat, key: Key) returns (s': State)
    requires Reachable(root, true, s) && s.lock.None? && PcOf(s, t).Idle? && ValidKey(key) && key in s.shown
    ensures var body := s.shown[key].up.body;
      Reachable(root, true, s') && s'.lock.None? && PcOf(s', t) == Looked(key, |body|, body, Version(s', key))
    ensures Moved(s, s', t) && s'.fs == s.fs
  {
    hide Reachable, FileAt, TagAt, ValidKey, TagOf, Inv, ShownTag;
    var s1 := ReachLookDone(root, s, t, key);
    ReachableInv(root, true, s1);
    ThreadAt(root, s1, t);
    s' := Apply(root, s1, Unlock(t));
    Extend(root, s1, Unlock(t));
  }

  /** For every name and any two bodies, a run without faults puts a GETFILE of the
      one in the gap while a PUT of the other, or a deletion, holds the mutex. */
  lemma {:induction false} GapIsReached(root: string, t: nat, u: nat, key: Key, a: string, b: string, tag: string, hex: string)
    returns (put: State, deleting: State)
    requires t != u && ValidKey(key) && '\n' !in tag
    ensures Reachable(root, true, put) && Reachable(root, false, put) && PcOf(put, t).Looked? && PcOf(put, t).seen == a && PcOf(put, t).key == key
    ensures PcOf(put, u) == PutHeld(Upload(key, tag, |b|, b), hex)
    ensures Reachable(root, true, deleting) && Reachable(root, false, deleting) && PcOf(deleting, t) == PcOf(put, t) && PcOf(deleting, u) == DelHeld(key)
  {
    hide Reachable, TempPath, FileAt, TagAt, ValidKey;
    StartReached(root);
    var s1 := ReachHeld(root, Start(), u, key, tag, a, hex);
    var s1b := ReachTruncated(root, s1, u);
    var s2 := ReachUnlocked(root, s1b, u, hex);
    var s3 := ReachLooked(root, s2, t, key);
    put := ReachHeld(root, s3, u, key, tag, b, hex);
    deleting := Apply(root, s3, LockDel(u, key));
    Extend(root, s3, LockDel(u, key));
    CleanIsReachable(root, put);
    CleanIsReachable(root, deleting);
  }

  lemma {:induction false} StartReached(root: string)
    ensures Reachable(root, true, Start())
  {
    assert Run(root, true, Start(), [], Start());
  }

  // ----- the critical sections, taken as one -----

  lemma {:induction false} RunCons(root: string, clean: bool, s: State, step: Step, steps: seq<Step>, s': State)
    requires Enabled(root, s, step) && (clean ==> !Fault(s, step)) && Run(root, clean, Apply(root, s, step), steps, s')
    ensures Run(root, clean, s, [step] + steps, s')
  {
    hide Enabled, Apply, Fault;
    assert ([step] + steps)[1..] == steps;
  }

  lemma {:induction false} RunOne(root: string, clean: bool, s: State, step: Step)
    requires Enabled(root, s, step) && (clean ==> !Fault(s, step))
    ensures Run(root, clean, s, [step], Apply(root, s, step))
  {
    hide Enabled, Apply, Fault;
    assert [step][1..] == [];
    assert Run(root, clean, Apply(root, s, step), [], Apply(root, s, step));
  }

  /** The critical section of a PUT, run to its end without a fault, is the commit of
      the sequential store applied to what arrived. */
  lemma {:induction false} CriticalSectionCommits(root: string, s: State, t: nat) returns (s': State)
    requires Reachable(root, false, s) && PcOf(s, t).PutHeld?
    ensures var up := PcOf(s, t).up;
      Run(root, true, s, [Rename(t)] + ([Truncate(t)] + ([WriteTag(t, |up.tag| + 1)] + [EndTag(t)])), s')
      && FilePath(root, up.key.user, up.key.name).Some? && |up.body| == up.size
      && s'.fs == Committed(s.fs - {TempPath(root, PcOf(s, t).hex)}, root, up.key.user, up.key.name, up.body, up.tag)
  {
    hide Inv, Reachable, TempPath, TagOf, Run;
    ReachableInv(root, false, s);
    ThreadAt(root, s, t);
    TempAt(root, s, t);
    var up := PcOf(s, t).up;
    var line := up.tag + "\n";
    assert line[..|line|] == line;
    var s1 := Apply(root, s, Rename(t));
    var s2 := Apply(root, s1, Truncate(t));
    var s3 := Apply(root, s2, WriteTag(t, |line|));
    s' := Apply(root, s3, EndTag(t));
    RunOne(root, true, s3, EndTag(t));
    RunCons(root, true, s2, WriteTag(t, |line|), [EndTag(t)], s');
    RunCons(root, true, s1, Truncate(t), [WriteTag(t, |line|)] + [EndTag(t)], s');
    RunCons(root, true, s, Rename(t), [Truncate(t)] + ([WriteTag(t, |line|)] + [EndTag(t)]), s');
  }

  lemma {:induction false} CriticalSectionRemoves(root: string, s: State, t: nat) returns (s': State)
    requires Reachable(root, false, s) && PcOf(s, t).DelHeld?
    ensures var key := PcOf(s, t).key;
      Run(root, true, s, [DropFile(t)] + [DropTag(t)], s')
      && PcOf(s', t) == DelDone(key, View(s.fs, root, key.user, key.name).Some?)
      && s'.fs == Removed(s.fs, root, key.user, key.name)
  {
    hide Inv, Reachable, TempPath, TagOf, Run;
    ReachableInv(root, false, s);
    ThreadAt(root, s, t);
    FileShape(root, PcOf(s, t).key.user, PcOf(s, t).key.name);
    var s1 := Apply(root, s, DropFile(t));
    s' := Apply(root, s1, DropTag(t));
    RunOne(root, true, s1, DropTag(t));
    RunCons(root, true, s, DropFile(t), [DropTag(t)], s');
  }

  // ----- the faults, one by one -----

  /** A tag file that cannot be opened: the new body shows under whatever tag was
      there, even one left behind by a deletion that a stop cut short. */
  lemma {:induction false} OpenFailureShows(root: string, s: State, t: nat) returns (s': State)
    requires Reachable(root, false, s) && PcOf(s, t).PutHeld?
    ensures var up := PcOf(s, t).up;
      Run(root, false, s, [Rename(t)] + [TagOpenFails(t)], s') && PcOf(s', t) == PutDone(up)
      && View(s'.fs, root, up.key.user, up.key.name) == Some(Item(up.body, TagOf(s.fs, TagAt(root, up.key))))
  {
    hide Inv, Reachable, View, TagAt, TagOf, Fault, Run, FileAt, TempPath;
    ReachableInv(root, false, s);
    ThreadAt(root, s, t);
    var s1 := Apply(root, s, Rename(t));
    s' := Apply(root, s1, TagOpenFails(t));
    RunOne(root, false, s1, TagOpenFails(t));
    RunCons(root, false, s, Rename(t), [TagOpenFails(t)], s');
    StepKeeps(root, s, Rename(t));
    StepKeeps(root, s1, TagOpenFails(t));
    ShownView(root, s', PcOf(s, t).up.key);
  }

  /** A write that ends after n bytes, with a failure unnoticed or with a stop: the new
      body shows under the first n bytes of its tag, none of it when nothing was
      written. */
  lemma {:induction false} ShortWriteShows(root: string, s: State, t: nat, n: nat, stop: bool) returns (s': State)
    requires Reachable(root, false, s) && PcOf(s, t).PutTruncated? && n <= |PcOf(s, t).up.tag|
    ensures var up := PcOf(s, t).up;
      Run(root, false, s, [WriteTag(t, n)] + [if stop then Stop else EndTag(t)], s') && !TornAt(s', up.key)
      && View(s'.fs, root, up.key.user, up.key.name) == Some(Item(up.body, up.tag[..n]))
  {
    hide Inv, Reachable, View, TagAt, TagOf, Fault, Run, FileAt, TempPath;
    ReachableInv(root, false, s);
    LockAt(root, s);
    ThreadAt(root, s, t);
    var s1, last := Apply(root, s, WriteTag(t, n)), if stop then Stop else EndTag(t);
    s' := Apply(root, s1, last);
    RunOne(root, false, s1, last);
    RunCons(root, false, s, WriteTag(t, n), [last], s');
    StepKeeps(root, s, WriteTag(t, n));
    StepKeeps(root, s1, last);
    ShownView(root, s', PcOf(s, t).up.key);
  }

  // ----- nothing is left behind -----

  /** The temporary file of a transfer that is under way. */
  ghost predicate InUse(root: string, s: State, path: string) {
    exists t: nat :: PcOf(s, t).HasTemp() && TempPath(root, PcOf(s, t).hex) == path
  }

  ghost predicate NoStrays(root: string, s: State) {
    forall path :: path in s.fs && IsTemp(root, path) ==> InUse(root, s, path)
  }

  /** What a step of thread t does to temporary files: none but its own comes, and its
      own goes unless t still needs it. */
  ghost predicate TempsKept(root: string, s: State, s': State, t: nat) {
    Moved(s, s', t)
    && (forall path :: path in s'.fs && IsTemp(root, path) ==>
          path in s.fs || (PcOf(s', t).HasTemp() && TempPath(root, PcOf(s', t).hex) == path))
    && (PcOf(s, t).HasTemp() && TempPath(root, PcOf(s, t).hex) in s'.fs ==>
          PcOf(s', t).HasTemp() && PcOf(s', t).hex == PcOf(s, t).hex)
  }

  lemma {:induction false} QuietTempsKept(root: string, s: State, step: Step)
    requires Quiet(step) && Enabled(root, s, step)
    ensures TempsKept(root, s, Apply(root, s, step), step.t)
  {
    hide FileAt, TagAt, TempPath, TagOf, IsTemp, ValidKey;
  }

  lemma {:induction false} OwnTempsKept(root: string, s: State, step: Step)
    requires Private(step) && Enabled(root, s, step)
    ensures TempsKept(root, s, Apply(root, s, step), step.t)
  {
    hide FileAt, TagAt, TempPath, TagOf, IsTemp, ValidKey;
  }

  lemma {:induction false} MutationTempsKept(root: string, s: State, step: Step)
    requires Inv(root, s) && Mutation(step) && Enabled(root, s, step)
    ensures TempsKept(root, s, Apply(root, s, step), step.t)
  {
    hide FileAt, TagAt, TempPath, TagOf, IsTemp, ValidKey, Inv;
    ThreadAt(root, s, step.t);
    LockAt(root, s);
    KeyOfValid(root, s, step);
    KeyApart(root, KeyOf(s, step), if PcOf(s, step.t).HasTemp() then PcOf(s, step.t).hex else "");
  }

  lemma {:induction false} StepLeavesNoStray(root: string, s: State, step: Step)
    requires Inv(root, s) && NoStrays(root, s) && Enabled(root, s, step)
    ensures NoStrays(root, Apply(root, s, step))
  {
    hide Inv, Enabled, Apply, IsTemp, TempPath;
    if step.Stop? {
      StopClears(root, s);
    } else {
      if Quiet(step) {
        QuietTempsKept(root, s, step);
      } else if Private(step) {
        OwnTempsKept(root, s, step);
      } else {
        MutationTempsKept(root, s, step);
      }
      var s' := Apply(root, s, step);
      forall path | path in s'.fs && IsTemp(root, path) ensures InUse(root, s', path) {
        if path in s.fs {
          var u: nat :| PcOf(s, u).HasTemp() && TempPath(root, PcOf(s, u).hex) == path;
          assert PcOf(s', u).HasTemp() && PcOf(s', u).hex == PcOf(s, u).hex;
        }
      }
    }
  }

  lemma {:induction false} StopClears(root: string, s: State)
    ensures NoStrays(root, Apply(root, s, Stop))
  {
    hide IsTemp;
  }

  lemma {:induction false} RunLeavesNoStray(root: string, clean: bool, s: State, steps: seq<Step>, s': State)
    requires Inv(root, s) && NoStrays(root, s) && Run(root, clean, s, steps, s')
    ensures NoStrays(root, s')
    decreases |steps|
  {
    hide Inv, Enabled, Apply, Fault, NoStrays;
    if steps != [] {
      StepKeeps(root, s, steps[0]);
      StepLeavesNoStray(root, s, steps[0]);
      RunLeavesNoStray(root, clean, Apply(root, s, steps[0]), steps[1..], s');
    }
  }

  /** Over every run, broken transfers, refused renames and stops included: a temporary
      file there is, is that of a transfer still under way. */
  lemma {:induction false} EveryTempIsInUse(root: string, s: State, path: string)
    requires Reachable(root, false, s) && path in s.fs && IsTemp(root, path)
    ensures InUse(root, s, path)
  {
    hide Inv, Run, IsTemp, InUse;
    var steps :| Run(root, false, Start(), steps, s);
    StartInv(root);
    RunLeavesNoStray(root, false, Start(), steps, s);
  }

  // ----- the mutex is always let go -----

  /** The whole tag is there, under the body of this PUT. */
  predicate TagDone(s: State, up: Upload) {
    up.key in s.shown && s.shown[up.key].up == up && s.shown[up.key].Tagged()
  }

  /** How many steps thread t, which holds the mutex, is from letting go. */
  function ToGo(s: State, t: nat): nat {
    match PcOf(s, t)
    case PutHeld(_, _) => 5
    case PutMoved(_) => 4
    case PutTruncated(up) => if TagDone(s, up) then 2 else 3
    case PutDone(_) => 1
    case DelHeld(_) => 3
    case DelHalf(_, _) => 2
    case DelDone(_, _) => 1
    case LookHeld(_, _) => 3
    case LookSized(_, _, _) => 2
    case LookDone(_, _, _) => 1
    case _ => 0
  }

  /** The next of them. */
  function NextOf(s: State, t: nat): Step {
    match PcOf(s, t)
    case PutHeld(_, _) => Rename(t)
    case PutMoved(_) => Truncate(t)
    case PutTruncated(up) => if TagDone(s, up) then EndTag(t) else WriteTag(t, |up.tag| + 1)
    case DelHeld(_) => DropFile(t)
    case DelHalf(_, _) => DropTag(t)
    case LookHeld(_, _) => ReadSize(t)
    case LookSized(_, _, _) => ReadTag(t)
    case _ => Unlock(t)
  }

  lemma {:induction false} NextGoesOn(root: string, s: State, t: nat)
    requires Inv(root, s) && s.lock == Some(t)
    ensures var step := NextOf(s, t);
      Enabled(root, s, step) && !Fault(s, step) && step != Stop && step.t == t
      && var s1 := Apply(root, s, step); s1.lock.None? || (s1.lock == Some(t) && ToGo(s1, t) < ToGo(s, t))
  {
    hide FileAt, TagAt, TempPath, TagOf, Inv, ValidKey;
    LockAt(root, s);
    ThreadAt(root, s, t);
    assert PcOf(s, t).Holding();
  }

  /** No deadlock: in whatever state a run has reached, the thread that holds the mutex
      can go on by itself, without a fault and waiting for nobody, and lets go within
      five steps. */
  lemma {:induction false} HolderLetsGo(root: string, s: State, t: nat) returns (steps: seq<Step>, s': State)
    requires Inv(root, s) && s.lock == Some(t)
    ensures Run(root, true, s, steps, s') && s'.lock.None?
    ensures |steps| <= ToGo(s, t) <= 5 && forall i :: 0 <= i < |steps| ==> steps[i] != Stop && steps[i].t == t
    decreases ToGo(s, t)
  {
    hide Apply, Enabled, Fault, Inv, NextOf;
    NextGoesOn(root, s, t);
    var step := NextOf(s, t);
    var s1 := Apply(root, s, step);
    if s1.lock.None? {
      StepsLeft(root, s, t);
      steps, s' := [step], s1;
      RunOne(root, true, s, step);
    } else {
      StepKeeps(root, s, step);
      var rest;
      rest, s' := HolderLetsGo(root, s1, t);
      RunCons(root, true, s, step, rest, s');
      steps := [step] + rest;
    }
  }

  lemma {:induction false} StepsLeft(root: string, s: State, t: nat)
    requires Inv(root, s) && s.lock == Some(t)
    ensures 1 <= ToGo(s, t)
  {
    hide Inv;
    LockAt(root, s);
    assert PcOf(s, t).Holding();
  }
}

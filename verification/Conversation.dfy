/** What a client and the server it talks to amount to, over any sequence of
    valid requests: a map from names to bytes and tag. */
module Conversation {
  import opened Wrappers
  import opened Manifests
  import opened Protocol
  import opened Store
  import opened Session
  import opened Remote

  type Files = map<string, Item>

  datatype Op = Put(name: string, body: string, tag: string) | Stat(name: string) | Get(name: string) | Delete(name: string) | ListAll

  datatype Answer = Done | Refused | NotFound | Meta(size: nat, tag: string) | Bytes(body: string) | Names(files: seq<(string, nat)>)

  /** The specification: one request on the map. A name the file system refuses to
      rename to cannot be put. */
  ghost function After(stores: string -> bool, m: Files, op: Op): Files {
    match op
    case Put(name, body, tag) => if stores(name) then m[name := Item(body, tag)] else m
    case Delete(name) => m - {name}
    case _ => m
  }

  ghost function Reply(stores: string -> bool, m: Files, op: Op): Answer {
    match op
    case Put(name, _, _) => if stores(name) then Done else Refused
    case Stat(name) => if name in m then Meta(|m[name].body|, m[name].tag) else NotFound
    case Get(name) => if name in m then Bytes(m[name].body) else NotFound
    case Delete(name) => if name in m then Done else NotFound
    case ListAll => Names(Sizes(m, Sorted(m.Keys)))
  }

  /** A listing shows names without the spaces they begin with. */
  function Sizes(m: Files, names: seq<string>): seq<(string, nat)>
    requires forall n :: n in names ==> n in m
  {
    if names == [] then []
    else (if TrimLeft(names[0]) == "" then [] else [(TrimLeft(names[0]), |m[names[0]].body|)]) + Sizes(m, names[1..])
  }

  ghost function AfterAll(stores: string -> bool, m: Files, ops: seq<Op>): Files {
    if ops == [] then m else After(stores, AfterAll(stores, m, ops[..|ops| - 1]), ops[|ops| - 1])
  }

  ghost function Replies(stores: string -> bool, m: Files, ops: seq<Op>): seq<Answer> {
    if ops == [] then []
    else Replies(stores, m, ops[..|ops| - 1]) + [Reply(stores, AfterAll(stores, m, ops[..|ops| - 1]), ops[|ops| - 1])]
  }

  // ----- which requests the grammar carries -----

  ghost predicate ValidOp(m: Files, op: Op) {
    match op
    case Put(name, body, tag) => ValidName(name) && ValidTag(tag) && |body| <= MAX_TRANSFER
    case Stat(name) => ValidName(name)
    case Get(name) => ValidName(name)
    case Delete(name) => ValidName(name)
    case ListAll => |m| <= 1000000
  }

  ghost predicate ValidOps(stores: string -> bool, m: Files, ops: seq<Op>) {
    forall k :: 0 <= k < |ops| ==> ValidOp(AfterAll(stores, m, ops[..k]), ops[k])
  }

  /** Sizes and tags that fit a reply; the names may be any the store accepts. */
  ghost predicate GoodFiles(m: Files) {
    forall name :: name in m ==> ValidTag(m[name].tag) && |m[name].body| <= MAX_TRANSFER
  }

  /** The same bytes, and a tag that reads the same on the wire: none is a dash. */
  predicate SameItem(item: Item, entry: Item) {
    item.body == entry.body && WireTag(item.tag) == WireTag(entry.tag)
  }

  /** The store holds exactly m for this account. */
  ghost predicate Holds(root: string, fs: Fs, user: string, m: Files) {
    forall name :: match View(fs, root, user, name)
      case None => name !in m
      case Some(item) => name in m && SameItem(item, m[name])
  }

  /** Which names of an account can be renamed to. */
  function Stores(cfg: Config, user: string): string -> bool {
    name => match FilePath(cfg.root, user, name) case Some(path) => cfg.renames(path) case None => false
  }

  /** Every other account's files are as they were. */
  ghost predicate OthersKept(root: string, fs: Fs, fs': Fs, user: string) {
    forall other, name :: other != user ==> View(fs', root, other, name) == View(fs, root, other, name)
  }

  // ----- one request against the store -----

  lemma {:induction false} PutHolds(root: string, fs: Fs, user: string, m: Files, name: string, body: string, tag: string, hex: string)
    requires Holds(root, fs, user, m) && GoodFiles(m) && FilePath(root, user, name).Some?
    requires ValidName(name) && ValidTag(tag) && |body| <= MAX_TRANSFER && TempPath(root, hex) !in fs
    ensures var fs' := Committed(fs, root, user, name, body, WireTag(tag));
      Holds(root, fs', user, m[name := Item(body, tag)]) && GoodFiles(m[name := Item(body, tag)])
      && OthersKept(root, fs, fs', user) && TempPath(root, hex) !in fs'
  {
    WireTwice(tag);
    hide View, ValidName, Committed, WireTag;
    var fs', item := Committed(fs, root, user, name, body, WireTag(tag)), Item(body, WireTag(tag));
    forall other, n
      ensures View(fs', root, other, n) == if (other, n) == (user, name) then Some(item) else View(fs, root, other, n)
    {
      CommitView(fs, root, user, name, body, WireTag(tag), other, n);
    }
    assert SameItem(item, Item(body, tag));
    assert TempPath(root, hex) !in fs' by { CommitKeepsTemp(root, fs, user, name, body, WireTag(tag), hex); }
  }

  lemma {:induction false} WireTwice(tag: string)
    requires ValidTag(tag)
    ensures WireTag(WireTag(tag)) == WireTag(tag) && '\n' !in WireTag(tag)
  {
  }

  lemma {:induction false} CommitKeepsTemp(root: string, fs: Fs, user: string, name: string, body: string, tag: string, hex: string)
    requires FilePath(root, user, name).Some? && TempPath(root, hex) !in fs
    ensures TempPath(root, hex) !in Committed(fs, root, user, name, body, tag)
  {
    AreasDisjoint(root, user, name, "", hex);
    FileShape(root, user, name);
    hide FilePath, TagPath;
  }

  lemma {:induction false} DeleteHolds(root: string, fs: Fs, user: string, m: Files, name: string, hex: string)
    requires Holds(root, fs, user, m) && GoodFiles(m) && FilePath(root, user, name).Some? && TempPath(root, hex) !in fs
    ensures var fs' := Removed(fs, root, user, name);
      Holds(root, fs', user, m - {name}) && GoodFiles(m - {name}) && OthersKept(root, fs, fs', user) && TempPath(root, hex) !in fs'
  {
    var fs' := Removed(fs, root, user, name);
    forall other, n
      ensures View(fs', root, other, n) == if (other, n) == (user, name) then None else View(fs, root, other, n)
    {
      RemoveView(fs, root, user, name, other, n);
    }
    hide View, ValidName, ValidTag;
  }

  lemma {:induction false} HeldName(root: string, fs: Fs, user: string, m: Files, name: string)
    requires Holds(root, fs, user, m) && GoodFiles(m)
    ensures name in NamesOf(fs, root, user) <==> name in m
    ensures StatClean(View(fs, root, user, name))
    ensures name in m ==> (FilePath(root, user, name).Some? && FilePath(root, user, name).value in fs
      && fs[FilePath(root, user, name).value] == m[name].body && m[name].tag != "-")
    ensures name in m <==> View(fs, root, user, name).Some?
    ensures name in m ==> SameItem(View(fs, root, user, name).value, m[name])
  {
    NamesAreViews(fs, root, user, name);
    DashIsTag();
  }

  lemma {:induction false} HeldNames(root: string, fs: Fs, user: string, m: Files)
    requires Holds(root, fs, user, m) && GoodFiles(m)
    ensures NamesOf(fs, root, user) == m.Keys
  {
    hide NamesOf, Holds, GoodFiles;
    forall name
      ensures name in NamesOf(fs, root, user) <==> name in m.Keys
    {
      HeldName(root, fs, user, m, name);
    }
  }

  function JustSizes(files: seq<Listed>): seq<(string, nat)> {
    seq(|files|, i requires 0 <= i < |files| => (files[i].name, files[i].size))
  }

  lemma {:induction false} HeldListClean(cfg: Config, fs: Fs, user: string, m: Files)
    requires Holds(cfg.root, fs, user, m) && GoodFiles(m) && |m| <= 1000000 && forall path :: ClockInRange(cfg, path)
    ensures ListClean(cfg, fs, user)
  {
    HeldNames(cfg.root, fs, user, m);
    assert |m.Keys| == |m|;
    forall name | name in m
      ensures FilePath(cfg.root, user, name).Some? && FilePath(cfg.root, user, name).value in fs
        && fs[FilePath(cfg.root, user, name).value] == m[name].body
    {
      HeldName(cfg.root, fs, user, m, name);
    }
    hide NamesOf, Holds, ValidName, ValidTag;
  }

  lemma {:induction false} ReportSizes(cfg: Config, fs: Fs, user: string, m: Files, names: seq<string>)
    requires Holds(cfg.root, fs, user, m) && GoodFiles(m) && ListClean(cfg, fs, user)
    requires forall n :: n in names ==> n in NamesOf(fs, cfg.root, user) && n in m
    ensures JustSizes(Report(cfg, fs, user, names)) == Sizes(m, names)
  {
    hide NamesOf, Holds, GoodFiles, IntText, ListClean, TrimLeft, Report, FilePath;
    if names != [] {
      assert names[0] in names;
      HeldName(cfg.root, fs, user, m, names[0]);
      ReportSizes(cfg, fs, user, m, names[1..]);
      ReportUnfold(cfg, fs, user, names);
      var r, rest := Report(cfg, fs, user, names), Report(cfg, fs, user, names[1..]);
      if TrimLeft(names[0]) != "" {
        assert JustSizes(r) == [(r[0].name, r[0].size)] + JustSizes(r[1..]);
      } else {
        assert r == rest;
      }
    } else {
      NothingListed(cfg, fs, user);
    }
  }

  lemma {:induction false} ReportUnfold(cfg: Config, fs: Fs, user: string, names: seq<string>)
    requires ListClean(cfg, fs, user) && names != [] && forall n :: n in names ==> n in NamesOf(fs, cfg.root, user)
    ensures FilePath(cfg.root, user, names[0]).Some? && FilePath(cfg.root, user, names[0]).value in fs
    ensures var r, path := Report(cfg, fs, user, names), FilePath(cfg.root, user, names[0]).value;
      if TrimLeft(names[0]) == "" then r == Report(cfg, fs, user, names[1..])
      else r != [] && r[0].name == TrimLeft(names[0]) && r[0].size == |fs[path]| && r[1..] == Report(cfg, fs, user, names[1..])
  {
    hide TrimLeft;
    assert names[0] in NamesOf(fs, cfg.root, user);
  }

  // ----- any conversation -----

  /** Performs one request on a live connection. */
  method Perform(r: Remote, op: Op, hex: string, ghost m: Files) returns (answer: Answer)
    requires r.Quiet() && r.LoggedIn() && TempPath(r.server.cfg.root, hex) !in r.server.disk.fs
    requires Holds(r.server.cfg.root, r.server.disk.fs, r.server.user, m) && GoodFiles(m) && ValidOp(m, op)
    requires forall path :: ClockInRange(r.server.cfg, path)
    modifies r.out, r.inp, r.server, r.server.disk
    ensures answer == Reply(Stores(r.server.cfg, r.server.user), m, op)
    ensures r.Quiet() && r.server.State() == old(r.server.State()) && TempPath(r.server.cfg.root, hex) !in r.server.disk.fs
    ensures Holds(r.server.cfg.root, r.server.disk.fs, r.server.user, After(Stores(r.server.cfg, r.server.user), m, op))
    ensures GoodFiles(After(Stores(r.server.cfg, r.server.user), m, op))
    ensures OthersKept(r.server.cfg.root, old(r.server.disk.fs), r.server.disk.fs, r.server.user)
  {
    hide ValidName, Committed, Removed, View, NamesOf, Sorted, ListClean, GoodFiles, ClockInRange;
    ghost var cfg, fs, user := r.server.cfg, r.server.disk.fs, r.server.user;
    match op
    case Put(name, body, tag) =>
      var ok := r.PutFile(name, body, tag, hex);
      if !ok {
        return Refused;
      }
      PutHolds(cfg.root, fs, user, m, name, body, tag, hex);
      return Done;
    case Stat(name) =>
      HeldName(cfg.root, fs, user, m, name);
      var ok, there, size, tag := r.Stat(name, hex);
      return if there then Meta(size, tag) else NotFound;
    case Get(name) =>
      HeldName(cfg.root, fs, user, m, name);
      var ok, found, body := r.GetFile(name, hex);
      return if found then Bytes(body) else NotFound;
    case Delete(name) =>
      HeldName(cfg.root, fs, user, m, name);
      ValidPath(cfg.root, user, name);
      var ok, found := r.DelFile(name, hex);
      DeleteHolds(cfg.root, fs, user, m, name, hex);
      return if found then Done else NotFound;
    case ListAll =>
      HeldListClean(cfg, fs, user, m);
      HeldNames(cfg.root, fs, user, m);
      CountWithin(cfg, fs, user);
      ReportSizes(cfg, fs, user, m, Sorted(m.Keys));
      var ok, files := r.ListFiles(hex);
      return Names(JustSizes(files));
  }

  lemma {:induction false} ValidPath(root: string, user: string, name: string)
    requires IsValidUsername(user) && ValidName(name)
    ensures FilePath(root, user, name).Some?
  {
  }

  /** Every reply of every conversation is the one the map gives, each side reads
      exactly what the other sent, and no other account is affected. */
  method Converse(r: Remote, ops: seq<Op>, hex: string, ghost m: Files) returns (answers: seq<Answer>)
    requires r.Quiet() && r.LoggedIn() && TempPath(r.server.cfg.root, hex) !in r.server.disk.fs
    requires Holds(r.server.cfg.root, r.server.disk.fs, r.server.user, m) && GoodFiles(m) && ValidOps(Stores(r.server.cfg, r.server.user), m, ops)
    requires forall path :: ClockInRange(r.server.cfg, path)
    modifies r.out, r.inp, r.server, r.server.disk
    ensures answers == Replies(Stores(r.server.cfg, r.server.user), m, ops) && r.Quiet() && r.server.State() == old(r.server.State())
    ensures Holds(r.server.cfg.root, r.server.disk.fs, r.server.user, AfterAll(Stores(r.server.cfg, r.server.user), m, ops))
    ensures OthersKept(r.server.cfg.root, old(r.server.disk.fs), r.server.disk.fs, r.server.user)
  {
    hide Holds, GoodFiles, ValidOp, View, ClockInRange, Reply, After, Stores;
    ghost var stores := Stores(r.server.cfg, r.server.user);
    answers := [];
    for k := 0 to |ops|
      invariant r.Quiet() && r.server.State() == old(r.server.State()) && TempPath(r.server.cfg.root, hex) !in r.server.disk.fs
      invariant Holds(r.server.cfg.root, r.server.disk.fs, r.server.user, AfterAll(stores, m, ops[..k]))
      invariant GoodFiles(AfterAll(stores, m, ops[..k]))
      invariant answers == Replies(stores, m, ops[..k])
      invariant OthersKept(r.server.cfg.root, old(r.server.disk.fs), r.server.disk.fs, r.server.user)
    {
      assert ops[..k + 1][..k] == ops[..k];
      var answer := Perform(r, ops[k], hex, AfterAll(stores, m, ops[..k]));
      answers := answers + [answer];
    }
    assert ops[..|ops|] == ops;
  }
}

/** What a line, and a whole connection, does: which file, which chunk, how much of
    the input, and whether the connection goes on. Each is said from the line and the
    input alone, and proved of every line there can be. */
module SessionEffects {
  import opened Wrappers
  import opened Protocol
  import opened SafeName
  import opened Manifests
  import opened Wire
  import opened Store
  import opened Session

  /** A size as it is announced: 1 to 20 digits, at most 2^40. */
  function Announced(text: string): (n: Option<nat>) {
    if 1 <= |text| <= 20 && Digits(text) && Value(text) <= 1099511627776 then Some(Value(text)) else None
  }

  predicate Command(line: string, cmd: string) {
    Fields(line) != [] && Fields(line)[0] == cmd
  }

  /** The body a PUTFILE of `name` announces, once it is past every check that comes
      before the body. */
  function PutSize(c: Conn, line: string, name: string): (n: Option<nat>) {
    var f := FieldsN(line, 4);
    if Command(line, "PUTFILE") && c.loggedIn && |f| == 4 && f[3] == name && IsValidUsername(c.user) && IsSafeName(name)
    then Announced(f[1]) else None
  }

  function PutChunkSize(c: Conn, line: string, id: string): (n: Option<nat>) {
    var f := Fields(line);
    if Command(line, "PUTCHUNK") && c.trusted && |f| == 3 && f[1] == id && IsSafeChunkId(id) then Announced(f[2]) else None
  }

  predicate AsksToDelete(c: Conn, line: string, name: string) {
    Command(line, "DELFILE") && c.loggedIn && |FieldsN(line, 2)| == 2 && FieldsN(line, 2)[1] == name
  }

  predicate AsksToDeleteChunk(c: Conn, line: string, id: string) {
    c.trusted && Fields(line) == ["DELCHUNK", id]
  }

  /** The length of the body taken off the input after the line. */
  function BodySize(c: Conn, line: string): (n: Option<nat>) {
    if Command(line, "PUTFILE") && |FieldsN(line, 4)| == 4 then PutSize(c, line, FieldsN(line, 4)[3])
    else if Command(line, "PUTCHUNK") && |Fields(line)| == 3 then PutChunkSize(c, line, Fields(line)[1])
    else None
  }

  /** The whole body is there, and the file system lets it take its place. */
  predicate Arrives(cfg: Config, size: Option<nat>, input: string, path: Option<string>) {
    size.Some? && size.value <= |input| && path.Some? && cfg.renames(path.value)
  }

  function ChunkAt(fs: Fs, root: string, id: string): Option<string> {
    match ChunkPath(root, id)
    case None => None
    case Some(path) => if path in fs then Some(fs[path]) else None
  }

  // ----- fields -----

  lemma {:induction false} SizeAnnounced(text: string)
    ensures ParsedSize(text, MAX_TRANSFER) == Announced(text)
  {
  }

  lemma {:induction false} FieldsNPlain(line: string, n: nat)
    requires '\n' !in line
    ensures forall i :: 0 <= i < |FieldsN(line, n)| ==> '\n' !in FieldsN(line, n)[i]
    decreases |line|
  {
    var t := TrimLeft(line);
    TrimIsSuffix(line);
    assert forall i :: 0 <= i < |t| ==> t[i] in line;
    if n > 1 && t != "" {
      FieldsNPlain(t[WordLen(t)..], n - 1);
    }
  }

  lemma {:induction false} TakenPlain(data: string, acc: string)
    requires '\n' !in acc
    ensures TakeLine(data, acc).Some? ==> '\n' !in TakeLine(data, acc).value.0
    decreases |data|
  {
    if data != "" && data[0] != '\n' {
      if data[0] == '\r' {
        TakenPlain(data[1..], acc);
      } else if |acc| < MAX_LINE {
        TakenPlain(data[1..], acc + [data[0]]);
      }
    }
  }

  lemma {:induction false} PathChecks(root: string, user: string, name: string)
    ensures FilePath(root, user, name).Some? <==> IsValidUsername(user) && IsSafeName(name)
  {
  }

  // ----- the handlers that change something -----

  lemma {:induction false} PutView(cfg: Config, c: Conn, fs: Fs, line: string, input: string, user: string, name: string)
    requires '\n' !in line && Command(line, "PUTFILE") && c.loggedIn
    ensures View(PutFile(cfg, c, fs, line, input).fs, cfg.root, user, name) ==
      if user == c.user && Arrives(cfg, PutSize(c, line, name), input, FilePath(cfg.root, user, name))
      then Some(Item(input[..PutSize(c, line, name).value], FieldsN(line, 4)[2]))
      else View(fs, cfg.root, user, name)
  {
    hide Fields, FieldsN, ParsedSize, Announced, Committed, View, IsSafeName, IsValidUsername, FilePath;
    var f := FieldsN(line, 4);
    if |f| == 4 {
      SizeAnnounced(f[1]);
      FieldsNPlain(line, 4);
      PathChecks(cfg.root, c.user, f[3]);
      if PutSize(c, line, f[3]).Some? && PutSize(c, line, f[3]).value <= |input| {
        CommitView(fs, cfg.root, c.user, f[3], input[..PutSize(c, line, f[3]).value], f[2], user, name);
      }
    }
  }

  lemma {:induction false} DelView(cfg: Config, c: Conn, fs: Fs, line: string, input: string, user: string, name: string)
    requires Command(line, "DELFILE") && c.loggedIn
    ensures View(DelFile(cfg, c, fs, line, input).fs, cfg.root, user, name) ==
      if user == c.user && AsksToDelete(c, line, name) then None else View(fs, cfg.root, user, name)
  {
    hide Fields, FieldsN, IsSafeName, IsValidUsername;
    var f := FieldsN(line, 2);
    if |f| == 2 && FilePath(cfg.root, c.user, f[1]).Some? {
      RemoveView(fs, cfg.root, c.user, f[1], user, name);
    }
  }

  lemma {:induction false} ChunkViews(cfg: Config, c: Conn, fs: Fs, f: seq<string>, input: string, user: string, name: string)
    ensures View(PutChunk(cfg, c, fs, f, input).fs, cfg.root, user, name) == View(fs, cfg.root, user, name)
    ensures View(DelChunk(cfg, c, fs, f, input).fs, cfg.root, user, name) == View(fs, cfg.root, user, name)
  {
    hide View, ParsedSize, ChunkPath;
    if |f| >= 2 && ChunkPath(cfg.root, f[1]).Some? {
      ChunkView(fs, cfg.root, f[1], "", user, name);
      if |f| == 3 && ParsedSize(f[2], MAX_TRANSFER).Some? && ParsedSize(f[2], MAX_TRANSFER).value <= |input| {
        ChunkView(fs, cfg.root, f[1], input[..ParsedSize(f[2], MAX_TRANSFER).value], user, name);
      }
    }
  }

  /** Everything else leaves every file alone. */
  lemma {:induction false} ReadsOnly(cfg: Config, c: Conn, fs: Fs, line: string, input: string)
    ensures var f := Fields(line);
      Login(cfg, c, fs, f, input).fs == fs && Auth(cfg, c, fs, f, input).fs == fs && Stat(cfg, c, fs, line, input).fs == fs
      && GetFile(cfg, c, fs, line, input).fs == fs && GetChunk(cfg, c, fs, f, input).fs == fs && List(cfg, c, fs, input).fs == fs
  {
    hide Fields, FieldsN, FileInfo, FilePath, ChunkPath, AccountDir, Sorted, NamesOf, Entries, Line, ToDecimal;
  }

  /** What a line does to what is visible, over every line and every input: a file is
      replaced by a whole announced body, with its tag, or taken away by its own owner's
      DELFILE, and in every other case is as it was. A body that breaks off, and one the
      file system refuses, change nothing. */
  lemma {:induction false} HandledView(cfg: Config, c: Conn, fs: Fs, line: string, input: string, user: string, name: string)
    requires '\n' !in line
    ensures View(Handled(cfg, c, fs, line, input).fs, cfg.root, user, name) ==
      if user == c.user && Arrives(cfg, PutSize(c, line, name), input, FilePath(cfg.root, user, name))
      then Some(Item(input[..PutSize(c, line, name).value], FieldsN(line, 4)[2]))
      else if user == c.user && AsksToDelete(c, line, name) then None
      else View(fs, cfg.root, user, name)
  {
    hide Login, Auth, Stat, PutFile, GetFile, DelFile, PutChunk, GetChunk, DelChunk, List, Fields, FieldsN, Announced,
      View, FilePath, IsSafeName, IsValidUsername;
    ReadsOnly(cfg, c, fs, line, input);
    ChunkViews(cfg, c, fs, Fields(line), input, user, name);
    if Command(line, "PUTFILE") && c.loggedIn {
      PutView(cfg, c, fs, line, input, user, name);
    } else if Command(line, "DELFILE") && c.loggedIn {
      DelView(cfg, c, fs, line, input, user, name);
    }
  }

  lemma {:induction false} PutChunkAt(cfg: Config, c: Conn, fs: Fs, line: string, input: string, id: string)
    requires Command(line, "PUTCHUNK") && c.trusted
    ensures ChunkAt(PutChunk(cfg, c, fs, Fields(line), input).fs, cfg.root, id) ==
      if Arrives(cfg, PutChunkSize(c, line, id), input, ChunkPath(cfg.root, id))
      then Some(input[..PutChunkSize(c, line, id).value])
      else ChunkAt(fs, cfg.root, id)
  {
    hide Fields, ParsedSize, Announced, IsSafeChunkId;
    var f := Fields(line);
    if |f| == 3 {
      SizeAnnounced(f[2]);
      if ChunkPath(cfg.root, f[1]).Some? && ChunkPath(cfg.root, id).Some? && ChunkPath(cfg.root, f[1]) == ChunkPath(cfg.root, id) {
        ChunkPathInjective(cfg.root, f[1], id);
      }
    }
  }

  lemma {:induction false} DelChunkAt(cfg: Config, c: Conn, fs: Fs, line: string, input: string, id: string)
    requires Command(line, "DELCHUNK") && c.trusted
    ensures ChunkAt(DelChunk(cfg, c, fs, Fields(line), input).fs, cfg.root, id) ==
      if AsksToDeleteChunk(c, line, id) then None else ChunkAt(fs, cfg.root, id)
  {
    hide Fields, IsSafeChunkId;
    var f := Fields(line);
    if |f| == 2 && ChunkPath(cfg.root, f[1]).Some? && ChunkPath(cfg.root, f[1]) == ChunkPath(cfg.root, id) {
      ChunkPathInjective(cfg.root, f[1], id);
    }
  }

  lemma {:induction false} FilesLeaveChunks(cfg: Config, c: Conn, fs: Fs, line: string, input: string, id: string)
    ensures ChunkAt(PutFile(cfg, c, fs, line, input).fs, cfg.root, id) == ChunkAt(fs, cfg.root, id)
    ensures ChunkAt(DelFile(cfg, c, fs, line, input).fs, cfg.root, id) == ChunkAt(fs, cfg.root, id)
  {
    hide FieldsN, ParsedSize, ChunkPath, FilePath, TagPath;
    var f := FieldsN(line, 4);
    if |f| == 4 && FilePath(cfg.root, c.user, f[3]).Some? && ChunkPath(cfg.root, id).Some? {
      AreasDisjoint(cfg.root, c.user, f[3], id, "");
      FileShape(cfg.root, c.user, f[3]);
    }
    var g := FieldsN(line, 2);
    if |g| == 2 && FilePath(cfg.root, c.user, g[1]).Some? && ChunkPath(cfg.root, id).Some? {
      AreasDisjoint(cfg.root, c.user, g[1], id, "");
      FileShape(cfg.root, c.user, g[1]);
    }
  }

  /** The same for chunks. */
  lemma {:induction false} HandledChunk(cfg: Config, c: Conn, fs: Fs, line: string, input: string, id: string)
    ensures ChunkAt(Handled(cfg, c, fs, line, input).fs, cfg.root, id) ==
      if Arrives(cfg, PutChunkSize(c, line, id), input, ChunkPath(cfg.root, id)) then Some(input[..PutChunkSize(c, line, id).value])
      else if AsksToDeleteChunk(c, line, id) then None
      else ChunkAt(fs, cfg.root, id)
  {
    hide Login, Auth, Stat, PutFile, GetFile, DelFile, PutChunk, GetChunk, DelChunk, List, Fields, FieldsN, Announced, ChunkAt, ChunkPath, IsSafeChunkId;
    ReadsOnly(cfg, c, fs, line, input);
    FilesLeaveChunks(cfg, c, fs, line, input, id);
    if Command(line, "PUTCHUNK") && c.trusted {
      PutChunkAt(cfg, c, fs, line, input, id);
    } else if Command(line, "DELCHUNK") && c.trusted {
      DelChunkAt(cfg, c, fs, line, input, id);
    }
  }

  // ----- how much is read, and when the connection ends -----

  lemma {:induction false} PutReads(cfg: Config, c: Conn, fs: Fs, line: string, input: string)
    requires Command(line, "PUTFILE") && c.loggedIn
    ensures var o, n := PutFile(cfg, c, fs, line, input), BodySize(c, line);
      (o.go <==> n.None? || n.value <= |input|)
      && o.rest == (match n case None => input case Some(size) => if size <= |input| then input[size..] else "")
  {
    hide Fields, FieldsN, ParsedSize, Announced, IsSafeName, IsValidUsername, FilePath, Committed, Line;
    var f := FieldsN(line, 4);
    if |f| == 4 {
      SizeAnnounced(f[1]);
      PathChecks(cfg.root, c.user, f[3]);
    }
  }

  lemma {:induction false} PutChunkReads(cfg: Config, c: Conn, fs: Fs, line: string, input: string)
    requires Command(line, "PUTCHUNK") && c.trusted
    ensures var o, n := PutChunk(cfg, c, fs, Fields(line), input), BodySize(c, line);
      (o.go <==> n.None? || n.value <= |input|)
      && o.rest == (match n case None => input case Some(size) => if size <= |input| then input[size..] else "")
  {
    hide Fields, ParsedSize, Announced, IsSafeChunkId, Line;
    var f := Fields(line);
    if |f| == 3 {
      SizeAnnounced(f[2]);
    }
  }

  lemma {:induction false} OthersRead(cfg: Config, c: Conn, fs: Fs, line: string, input: string)
    ensures var f := Fields(line);
      Stat(cfg, c, fs, line, input).rest == GetFile(cfg, c, fs, line, input).rest == DelFile(cfg, c, fs, line, input).rest == input
      && GetChunk(cfg, c, fs, f, input).rest == DelChunk(cfg, c, fs, f, input).rest == List(cfg, c, fs, input).rest == input
      && Login(cfg, c, fs, f, input).rest == Auth(cfg, c, fs, f, input).rest == input
      && Stat(cfg, c, fs, line, input).go && GetFile(cfg, c, fs, line, input).go && DelFile(cfg, c, fs, line, input).go
      && GetChunk(cfg, c, fs, f, input).go && DelChunk(cfg, c, fs, f, input).go && List(cfg, c, fs, input).go
  {
    hide Fields, FieldsN, FileInfo, FilePath, ChunkPath, AccountDir, Sorted, NamesOf, Entries, Line, ToDecimal, Removed;
  }

  /** A line takes its announced body off the input and nothing more; what is refused
      before that takes nothing. */
  lemma {:induction false} HandledRest(cfg: Config, c: Conn, fs: Fs, line: string, input: string)
    ensures Handled(cfg, c, fs, line, input).rest ==
      match BodySize(c, line) case None => input case Some(n) => if n <= |input| then input[n..] else ""
  {
    hide Login, Auth, Stat, PutFile, GetFile, DelFile, PutChunk, GetChunk, DelChunk, List, Fields, FieldsN, Announced;
    OthersRead(cfg, c, fs, line, input);
    if Command(line, "PUTFILE") && c.loggedIn {
      PutReads(cfg, c, fs, line, input);
    } else if Command(line, "PUTCHUNK") && c.trusted {
      PutChunkReads(cfg, c, fs, line, input);
    }
  }

  /** The connection ends after QUIT, after one refused log-in or token, and after a
      body that breaks off; every other line, however wrong, leaves it open. */
  lemma {:induction false} HandledEndsIff(cfg: Config, c: Conn, fs: Fs, line: string, input: string)
    ensures !Handled(cfg, c, fs, line, input).go <==>
      (Command(line, "QUIT")
       || (Command(line, "LOGIN") && |Fields(line)| == 3 && !cfg.verify(Fields(line)[1], Fields(line)[2]))
       || (Command(line, "AUTH") && |Fields(line)| == 2 && Fields(line)[1] != cfg.token)
       || (BodySize(c, line).Some? && BodySize(c, line).value > |input|))
  {
    hide Stat, PutFile, GetFile, DelFile, PutChunk, GetChunk, DelChunk, List, Fields, FieldsN, Announced, AccountDir, Line;
    OthersRead(cfg, c, fs, line, input);
    if Command(line, "PUTFILE") && c.loggedIn {
      PutReads(cfg, c, fs, line, input);
    } else if Command(line, "PUTCHUNK") && c.trusted {
      PutChunkReads(cfg, c, fs, line, input);
    }
  }

  // ----- what is acknowledged -----

  lemma {:induction false} PutAnswers(cfg: Config, c: Conn, fs: Fs, line: string, input: string)
    requires Command(line, "PUTFILE") && c.loggedIn
    ensures PutFile(cfg, c, fs, line, input).out == Line("OK") <==>
      |FieldsN(line, 4)| == 4 && var name := FieldsN(line, 4)[3]; Arrives(cfg, PutSize(c, line, name), input, FilePath(cfg.root, c.user, name))
  {
    hide Fields, FieldsN, ParsedSize, Announced, IsSafeName, IsValidUsername, FilePath, Committed;
    var f := FieldsN(line, 4);
    if |f| == 4 {
      SizeAnnounced(f[1]);
      PathChecks(cfg.root, c.user, f[3]);
    }
  }

  lemma {:induction false} PutChunkAnswers(cfg: Config, c: Conn, fs: Fs, line: string, input: string)
    requires Command(line, "PUTCHUNK") && c.trusted
    ensures PutChunk(cfg, c, fs, Fields(line), input).out == Line("OK") <==>
      |Fields(line)| == 3 && var id := Fields(line)[1]; Arrives(cfg, PutChunkSize(c, line, id), input, ChunkPath(cfg.root, id))
  {
    hide Fields, ParsedSize, Announced, IsSafeChunkId;
    var f := Fields(line);
    if |f| == 3 {
      SizeAnnounced(f[2]);
    }
  }

  /** OK to a PUTFILE means that the whole body is what now shows under that name, and
      a body that shows has been answered with OK; the same for PUTCHUNK. OK to a
      DELFILE means that there was a file. */
  lemma {:induction false} AcknowledgedIff(cfg: Config, c: Conn, fs: Fs, line: string, input: string)
    ensures var ok := Handled(cfg, c, fs, line, input).out == Line("OK");
      (Command(line, "PUTFILE") ==> (ok <==>
        (|FieldsN(line, 4)| == 4 && var name := FieldsN(line, 4)[3]; Arrives(cfg, PutSize(c, line, name), input, FilePath(cfg.root, c.user, name)))))
      && (Command(line, "PUTCHUNK") ==> (ok <==>
        (|Fields(line)| == 3 && var id := Fields(line)[1]; Arrives(cfg, PutChunkSize(c, line, id), input, ChunkPath(cfg.root, id)))))
      && (Command(line, "DELFILE") ==> (ok <==>
        (c.loggedIn && |FieldsN(line, 2)| == 2 && View(fs, cfg.root, c.user, FieldsN(line, 2)[1]).Some?)))
  {
    hide Login, Auth, Stat, PutFile, GetFile, PutChunk, GetChunk, DelChunk, List, Fields, FieldsN, Announced, FilePath, ChunkPath;
    if Command(line, "PUTFILE") && c.loggedIn {
      PutAnswers(cfg, c, fs, line, input);
    } else if Command(line, "PUTCHUNK") && c.trusted {
      PutChunkAnswers(cfg, c, fs, line, input);
    }
  }

  // ----- a whole connection -----

  /** In the course of serving, `line` is handled with `rest` unread after it. */
  ghost predicate Serves(cfg: Config, c: Conn, fs: Fs, input: string, c': Conn, line': string, rest': string)
    decreases |input|
  {
    match TakeLine(input, "")
    case None => false
    case Some((line, rest)) =>
      TakeShrinks(input, "");
      HandledKeepsInputShort(cfg, c, fs, line, rest);
      var o := Handled(cfg, c, fs, line, rest);
      (c' == c && line' == line && rest' == rest) || (o.go && Serves(cfg, o.conn, o.fs, o.rest, c', line', rest'))
  }

  /** Why a name shows v: a whole body has been put there, or a deletion asked for. */
  ghost predicate Explains(cfg: Config, c: Conn, line: string, rest: string, user: string, name: string, v: Option<Item>) {
    user == c.user
    && if Arrives(cfg, PutSize(c, line, name), rest, FilePath(cfg.root, user, name))
       then v == Some(Item(rest[..PutSize(c, line, name).value], FieldsN(line, 4)[2]))
       else AsksToDelete(c, line, name) && v == None
  }

  /** Over every sequence of input bytes: whatever shows under any name of any account at
      the end was there before, or a line of that account put or deleted it. */
  lemma {:induction false} ServedView(cfg: Config, c: Conn, fs: Fs, input: string, user: string, name: string)
    ensures var now := View(Served(cfg, c, fs, input).0, cfg.root, user, name);
      now == View(fs, cfg.root, user, name)
      || exists c', line, rest :: Serves(cfg, c, fs, input, c', line, rest) && Explains(cfg, c', line, rest, user, name, now)
    decreases |input|
  {
    hide Handled, View, FieldsN, PutSize, AsksToDelete, FilePath;
    match TakeLine(input, "")
    case None =>
    case Some((line, rest)) =>
      TakeShrinks(input, "");
      HandledKeepsInputShort(cfg, c, fs, line, rest);
      TakenPlain(input, "");
      HandledView(cfg, c, fs, line, rest, user, name);
      var o := Handled(cfg, c, fs, line, rest);
      var now := View(Served(cfg, c, fs, input).0, cfg.root, user, name);
      if o.go {
        ServedView(cfg, o.conn, o.fs, o.rest, user, name);
        if c', line', rest' :| Serves(cfg, o.conn, o.fs, o.rest, c', line', rest') && Explains(cfg, c', line', rest', user, name, now) {
          assert Serves(cfg, c, fs, input, c', line', rest');
        }
      }
      if now == View(o.fs, cfg.root, user, name) && now != View(fs, cfg.root, user, name) {
        assert Serves(cfg, c, fs, input, c, line, rest) && Explains(cfg, c, line, rest, user, name, now);
      }
  }

  ghost predicate ExplainsChunk(cfg: Config, c: Conn, line: string, rest: string, id: string, v: Option<string>) {
    if Arrives(cfg, PutChunkSize(c, line, id), rest, ChunkPath(cfg.root, id))
    then v == Some(rest[..PutChunkSize(c, line, id).value])
    else AsksToDeleteChunk(c, line, id) && v == None
  }

  lemma {:induction false} ServedChunk(cfg: Config, c: Conn, fs: Fs, input: string, id: string)
    ensures var now := ChunkAt(Served(cfg, c, fs, input).0, cfg.root, id);
      now == ChunkAt(fs, cfg.root, id)
      || exists c', line, rest :: Serves(cfg, c, fs, input, c', line, rest) && ExplainsChunk(cfg, c', line, rest, id, now)
    decreases |input|
  {
    hide Handled, ChunkAt, PutChunkSize, AsksToDeleteChunk, ChunkPath;
    match TakeLine(input, "")
    case None =>
    case Some((line, rest)) =>
      TakeShrinks(input, "");
      HandledKeepsInputShort(cfg, c, fs, line, rest);
      HandledChunk(cfg, c, fs, line, rest, id);
      var o := Handled(cfg, c, fs, line, rest);
      var now := ChunkAt(Served(cfg, c, fs, input).0, cfg.root, id);
      if o.go {
        ServedChunk(cfg, o.conn, o.fs, o.rest, id);
        if c', line', rest' :| Serves(cfg, o.conn, o.fs, o.rest, c', line', rest') && ExplainsChunk(cfg, c', line', rest', id, now) {
          assert Serves(cfg, c, fs, input, c', line', rest');
        }
      }
      if now == ChunkAt(o.fs, cfg.root, id) && now != ChunkAt(fs, cfg.root, id) {
        assert Serves(cfg, c, fs, input, c, line, rest) && ExplainsChunk(cfg, c, line, rest, id, now);
      }
  }

  // ----- which connections are the web interface's -----

  const METHODS: set<string> := {"GET", "POST", "PUT", "DELETE", "HEAD", "OPTIONS"}

  const COMMANDS: set<string> := {
    "HELLO", "PING", "QUIT", "LOGIN", "AUTH", "STAT", "PUTFILE", "GETFILE", "DELFILE", "LIST", "PUTCHUNK", "GETCHUNK", "DELCHUNK"}

  /** A first line is the web's exactly when it is a method, a space and anything. */
  lemma {:induction false} WebIff(line: string)
    ensures LooksLikeHttp(line) <==> exists m, rest :: m in METHODS && line == m + " " + rest
  {
    if LooksLikeHttp(line) {
      var m :| m in METHODS && m + " " <= line;
      assert line == m + " " + line[|m| + 1..];
    }
    if m, rest :| m in METHODS && line == m + " " + rest {
      assert m + " " <= line;
    }
  }

  lemma {:induction false} MethodsAreWords(m: string)
    requires m in METHODS
    ensures Word(m) && m !in COMMANDS
  {
  }

  /** No command of the protocol is taken for a web request. */
  lemma {:induction false} CommandsAreServed(line: string)
    requires Fields(line) != [] && Fields(line)[0] in COMMANDS
    ensures !LooksLikeHttp(line)
  {
    hide Fields, LooksLikeHttp, Word;
    WebIff(line);
    if m, rest :| m in METHODS && line == m + " " + rest {
      MethodsAreWords(m);
      WordThen(m, rest);
    }
  }

  /** Those are all the commands there are. */
  lemma {:induction false} OthersAreUnknown(cfg: Config, c: Conn, fs: Fs, line: string, input: string)
    requires Fields(line) != [] && Fields(line)[0] !in COMMANDS
    ensures Handled(cfg, c, fs, line, input) == Outcome(c, fs, input, Line("ERR " + "unknown-command"), true)
  {
    hide Login, Auth, Stat, PutFile, GetFile, DelFile, PutChunk, GetChunk, DelChunk, List, Fields;
  }

  // ----- one request after another, and all of them at once -----

  datatype Request = Request(line: string, body: string)

  /** The line fits, and the body is what the server takes after it. */
  predicate Framed(c: Conn, r: Request) {
    Sendable(r.line) && match BodySize(c, r.line) case None => r.body == "" case Some(n) => |r.body| == n
  }

  function OnWire(script: seq<Request>): string {
    if script == [] then "" else script[0].line + "\n" + script[0].body + OnWire(script[1..])
  }

  /** Every request framed for the state it meets. */
  ghost predicate WellFramed(cfg: Config, c: Conn, fs: Fs, script: seq<Request>)
    decreases |script|
  {
    script != [] ==>
      Framed(c, script[0])
      && var o := Handled(cfg, c, fs, script[0].line, script[0].body);
         o.go ==> WellFramed(cfg, o.conn, o.fs, script[1..])
  }

  /** The requests handled one by one, each before the next has been sent. */
  ghost function Played(cfg: Config, c: Conn, fs: Fs, script: seq<Request>): (Fs, string)
    decreases |script|
  {
    if script == [] then (fs, "")
    else
      var o := Handled(cfg, c, fs, script[0].line, script[0].body);
      if o.go then Continued(o.out, Played(cfg, o.conn, o.fs, script[1..])) else (o.fs, o.out)
  }

  /** The same outcome, with more input left. */
  predicate Longer(o: Outcome, o': Outcome, more: string) {
    o' == o.(rest := o.rest + more)
  }

  lemma {:induction false} PlainLocal(c: Conn, fs: Fs, body: string, more: string)
    ensures forall out, go :: Longer(Outcome(c, fs, body, out, go), Outcome(c, fs, body + more, out, go), more)
  {
  }

  lemma {:induction false} PutLocal(cfg: Config, c: Conn, fs: Fs, line: string, body: string, more: string)
    requires Command(line, "PUTFILE") && c.loggedIn && (BodySize(c, line).Some? ==> BodySize(c, line).value <= |body|)
    ensures Longer(PutFile(cfg, c, fs, line, body), PutFile(cfg, c, fs, line, body + more), more)
  {
    hide Fields, FieldsN, ParsedSize, Announced, IsSafeName, IsValidUsername, FilePath, Committed, Line;
    var f := FieldsN(line, 4);
    if |f| == 4 {
      SizeAnnounced(f[1]);
      PathChecks(cfg.root, c.user, f[3]);
    }
    forall n | 0 <= n <= |body| ensures (body + more)[..n] == body[..n] && (body + more)[n..] == body[n..] + more {
    }
  }

  lemma {:induction false} PutChunkLocal(cfg: Config, c: Conn, fs: Fs, line: string, body: string, more: string)
    requires Command(line, "PUTCHUNK") && c.trusted && (BodySize(c, line).Some? ==> BodySize(c, line).value <= |body|)
    ensures Longer(PutChunk(cfg, c, fs, Fields(line), body), PutChunk(cfg, c, fs, Fields(line), body + more), more)
  {
    hide Fields, ParsedSize, Announced, IsSafeChunkId, Line;
    if |Fields(line)| == 3 {
      SizeAnnounced(Fields(line)[2]);
    }
    forall n | 0 <= n <= |body| ensures (body + more)[..n] == body[..n] && (body + more)[n..] == body[n..] + more {
    }
  }

  lemma {:induction false} FilesLocal(cfg: Config, c: Conn, fs: Fs, line: string, body: string, more: string)
    ensures Longer(Stat(cfg, c, fs, line, body), Stat(cfg, c, fs, line, body + more), more)
    ensures Longer(GetFile(cfg, c, fs, line, body), GetFile(cfg, c, fs, line, body + more), more)
    ensures Longer(DelFile(cfg, c, fs, line, body), DelFile(cfg, c, fs, line, body + more), more)
    ensures Longer(List(cfg, c, fs, body), List(cfg, c, fs, body + more), more)
  {
    hide Fields, FieldsN, FileInfo, FilePath, AccountDir, Sorted, NamesOf, Entries, Line, ToDecimal, Removed;
  }

  lemma {:induction false} RightsLocal(cfg: Config, c: Conn, fs: Fs, f: seq<string>, body: string, more: string)
    ensures Longer(Login(cfg, c, fs, f, body), Login(cfg, c, fs, f, body + more), more)
    ensures Longer(Auth(cfg, c, fs, f, body), Auth(cfg, c, fs, f, body + more), more)
    ensures Longer(GetChunk(cfg, c, fs, f, body), GetChunk(cfg, c, fs, f, body + more), more)
    ensures Longer(DelChunk(cfg, c, fs, f, body), DelChunk(cfg, c, fs, f, body + more), more)
  {
    hide ChunkPath, AccountDir, Line, ToDecimal;
  }

  /** Bytes that come later do not matter to a line whose body is complete. */
  lemma {:induction false} HandledLocal(cfg: Config, c: Conn, fs: Fs, line: string, body: string, more: string)
    requires BodySize(c, line).Some? ==> BodySize(c, line).value <= |body|
    ensures Longer(Handled(cfg, c, fs, line, body), Handled(cfg, c, fs, line, body + more), more)
  {
    hide Login, Auth, Stat, PutFile, GetFile, DelFile, PutChunk, GetChunk, DelChunk, List, Fields, Line, BodySize, Longer;
    PlainLocal(c, fs, body, more);
    FilesLocal(cfg, c, fs, line, body, more);
    RightsLocal(cfg, c, fs, Fields(line), body, more);
    if Command(line, "PUTFILE") && c.loggedIn {
      PutLocal(cfg, c, fs, line, body, more);
    } else if Command(line, "PUTCHUNK") && c.trusted {
      PutChunkLocal(cfg, c, fs, line, body, more);
    }
  }

  /** A connection that sends well-framed requests gets the same store and the same
      bytes back whether it waits for each answer or sends everything ahead. */
  lemma {:induction false} TurnsAreServed(cfg: Config, c: Conn, fs: Fs, script: seq<Request>)
    requires WellFramed(cfg, c, fs, script)
    ensures Served(cfg, c, fs, OnWire(script)) == Played(cfg, c, fs, script)
    decreases |script|
  {
    hide Handled, BodySize, Sendable;
    if script != [] {
      var r, more := script[0], OnWire(script[1..]);
      var o := Handled(cfg, c, fs, r.line, r.body);
      assert OnWire(script) == r.line + "\n" + (r.body + more);
      LineRoundTrip(r.line, r.body + more);
      HandledLocal(cfg, c, fs, r.line, r.body, more);
      HandledRest(cfg, c, fs, r.line, r.body);
      assert r.body[|r.body|..] == "" && "" + more == more;
      if o.go {
        TurnsAreServed(cfg, o.conn, o.fs, script[1..]);
      }
    }
  }
}

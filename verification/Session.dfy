/** One connection as the server sees it: what each line does to the session, the
    store, the unread input and the output. */
module Session {
  import opened Wrappers
  import opened Protocol
  import opened SafeName
  import opened Wire
  import opened Manifests
  import opened Store

  const MAX_TRANSFER: nat := 0x100_0000_0000

  /** `verify` is the account check, `token` the machine token of the group, and
      `modified` the file system's clock reading for a path; `renames` says whether
      the file system lets a file be renamed to a path. */
  datatype Config = Config(root: string, verify: (string, string) -> bool, token: string, modified: string -> int,
                           renames: string -> bool)

  datatype Conn = Conn(user: string, loggedIn: bool, trusted: bool)

  const FRESH: Conn := Conn("", false, false)

  /** The outcome of one line: `rest` is the input left unread, `out` the bytes
      sent, and `go` whether the connection continues. */
  datatype Outcome = Outcome(conn: Conn, fs: Fs, rest: string, out: string, go: bool)

  function Line(s: string): string {
    s + "\n"
  }

  function Fail(c: Conn, fs: Fs, input: string, reason: string): Outcome {
    Outcome(c, fs, input, Line("ERR " + reason), true)
  }

  function Login(cfg: Config, c: Conn, fs: Fs, f: seq<string>, input: string): Outcome {
    if |f| != 3 then Fail(c, fs, input, "malformed-login")
    else if !cfg.verify(f[1], f[2]) then Outcome(c, fs, input, Line("ERR bad-credentials"), false)
    else if AccountDir(cfg.root, f[1]).None? then Fail(c, fs, input, "account-storage")
    else Outcome(c.(user := f[1], loggedIn := true), fs, input, Line("OK"), true)
  }

  function Auth(cfg: Config, c: Conn, fs: Fs, f: seq<string>, input: string): Outcome {
    if |f| != 2 then Fail(c, fs, input, "malformed-auth")
    else if f[1] != cfg.token then Outcome(c, fs, input, Line("ERR bad-token"), false)
    else Outcome(c.(trusted := true), fs, input, Line("OK"), true)
  }

  function Stat(cfg: Config, c: Conn, fs: Fs, line: string, input: string): Outcome {
    var f := FieldsN(line, 2);
    if |f| != 2 then Fail(c, fs, input, "malformed-stat")
    else match FileInfo(fs, cfg.root, c.user, f[1])
      case None => Outcome(c, fs, input, Line("NONE"), true)
      case Some((size, tag)) =>
        Outcome(c, fs, input, Line("META " + ToDecimal(size) + " " + (if tag == "" then "-" else tag)), true)
  }

  /** The body follows the line; a connection that breaks inside it stores nothing. */
  function PutFile(cfg: Config, c: Conn, fs: Fs, line: string, input: string): Outcome {
    var f := FieldsN(line, 4);
    if |f| != 4 then Fail(c, fs, input, "malformed-putfile")
    else match ParsedSize(f[1], MAX_TRANSFER)
      case None => Fail(c, fs, input, "bad-size")
      case Some(size) =>
        if FilePath(cfg.root, c.user, f[3]).None? then Fail(c, fs, input, "bad-name")
        else if |input| < size then Outcome(c, fs, "", "", false)
        else if !cfg.renames(FilePath(cfg.root, c.user, f[3]).value) then Fail(c, fs, input[size..], "store-failed")
        else Outcome(c, Committed(fs, cfg.root, c.user, f[3], input[..size], f[2]), input[size..], Line("OK"), true)
  }

  function GetFile(cfg: Config, c: Conn, fs: Fs, line: string, input: string): Outcome {
    var f := FieldsN(line, 2);
    if |f| != 2 then Fail(c, fs, input, "malformed-getfile")
    else match FilePath(cfg.root, c.user, f[1])
      case None => Outcome(c, fs, input, Line("NONE"), true)
      case Some(path) =>
        if path !in fs then Outcome(c, fs, input, Line("NONE"), true)
        else Outcome(c, fs, input, Line("DATA " + ToDecimal(|fs[path]|)) + fs[path], true)
  }

  function DelFile(cfg: Config, c: Conn, fs: Fs, line: string, input: string): Outcome {
    var f := FieldsN(line, 2);
    if |f| != 2 then Fail(c, fs, input, "malformed-delfile")
    else
      var existed := match FilePath(cfg.root, c.user, f[1]) case None => false case Some(path) => path in fs;
      Outcome(c, Removed(fs, cfg.root, c.user, f[1]), input, Line(if existed then "OK" else "NONE"), true)
  }

  function PutChunk(cfg: Config, c: Conn, fs: Fs, f: seq<string>, input: string): Outcome {
    if |f| != 3 then Fail(c, fs, input, "malformed-putchunk")
    else match ChunkPath(cfg.root, f[1])
      case None => Fail(c, fs, input, "bad-chunk-id")
      case Some(path) =>
        match ParsedSize(f[2], MAX_TRANSFER)
        case None => Fail(c, fs, input, "bad-size")
        case Some(size) =>
          if |input| < size then Outcome(c, fs, "", "", false)
          else if !cfg.renames(path) then Fail(c, fs, input[size..], "store-failed")
          else Outcome(c, fs[path := input[..size]], input[size..], Line("OK"), true)
  }

  function GetChunk(cfg: Config, c: Conn, fs: Fs, f: seq<string>, input: string): Outcome {
    if |f| != 2 then Fail(c, fs, input, "malformed-getchunk")
    else match ChunkPath(cfg.root, f[1])
      case None => Outcome(c, fs, input, Line("NONE"), true)
      case Some(path) =>
        if path !in fs then Outcome(c, fs, input, Line("NONE"), true)
        else Outcome(c, fs, input, Line("DATA " + ToDecimal(|fs[path]|)) + fs[path], true)
  }

  function DelChunk(cfg: Config, c: Conn, fs: Fs, f: seq<string>, input: string): Outcome {
    if |f| != 2 then Fail(c, fs, input, "malformed-delchunk")
    else match ChunkPath(cfg.root, f[1])
      case None => Fail(c, fs, input, "bad-chunk-id")
      case Some(path) => Outcome(c, fs - {path}, input, Line("OK"), true)
  }

  function Entry(cfg: Config, fs: Fs, user: string, name: string): string {
    match FilePath(cfg.root, user, name)
    case Some(path) => if path in fs then ToDecimal(|fs[path]|) + " " + IntText(cfg.modified(path)) + " " + name else ""
    case None => ""
  }

  function Entries(cfg: Config, fs: Fs, user: string, names: seq<string>): string {
    if names == [] then "" else Line(Entry(cfg, fs, user, names[0])) + Entries(cfg, fs, user, names[1..])
  }

  ghost function List(cfg: Config, c: Conn, fs: Fs, input: string): Outcome {
    var names := Sorted(NamesOf(fs, cfg.root, c.user));
    Outcome(c, fs, input, Line("COUNT " + ToDecimal(|names|)) + Entries(cfg, fs, c.user, names), true)
  }

  predicate IsFileCommand(cmd: string) {
    cmd == "STAT" || cmd == "PUTFILE" || cmd == "GETFILE" || cmd == "DELFILE" || cmd == "LIST"
  }

  predicate IsChunkCommand(cmd: string) {
    cmd == "PUTCHUNK" || cmd == "GETCHUNK" || cmd == "DELCHUNK"
  }

  ghost function Handled(cfg: Config, c: Conn, fs: Fs, line: string, input: string): Outcome {
    var f := Fields(line);
    if f == [] then Outcome(c, fs, input, "", true)
    else if f[0] == "HELLO" then Outcome(c, fs, input, Line("OK pcs/4"), true)
    else if f[0] == "PING" then Outcome(c, fs, input, Line("PONG"), true)
    else if f[0] == "QUIT" then Outcome(c, fs, input, Line("BYE"), false)
    else if f[0] == "LOGIN" then Login(cfg, c, fs, f, input)
    else if f[0] == "AUTH" then Auth(cfg, c, fs, f, input)
    else if IsFileCommand(f[0]) && !c.loggedIn then Fail(c, fs, input, "login-required")
    else if IsChunkCommand(f[0]) && !c.trusted then Fail(c, fs, input, "token-required")
    else if f[0] == "STAT" then Stat(cfg, c, fs, line, input)
    else if f[0] == "PUTFILE" then PutFile(cfg, c, fs, line, input)
    else if f[0] == "GETFILE" then GetFile(cfg, c, fs, line, input)
    else if f[0] == "DELFILE" then DelFile(cfg, c, fs, line, input)
    else if f[0] == "PUTCHUNK" then PutChunk(cfg, c, fs, f, input)
    else if f[0] == "GETCHUNK" then GetChunk(cfg, c, fs, f, input)
    else if f[0] == "DELCHUNK" then DelChunk(cfg, c, fs, f, input)
    else if f[0] == "LIST" then List(cfg, c, fs, input)
    else Fail(c, fs, input, "unknown-command")
  }

  lemma {:induction false} HandledKeepsInputShort(cfg: Config, c: Conn, fs: Fs, line: string, input: string)
    ensures |Handled(cfg, c, fs, line, input).rest| <= |input|
  {
    hide Fields, FieldsN, ParsedSize, Sorted, NamesOf, Entries, Line, FileInfo, FilePath, ChunkPath, Committed, Removed, View, IsValidUsername,
      PutFile, PutChunk;
    PutsKeepInputShort(cfg, c, fs, line, input);
  }

  lemma {:induction false} PutsKeepInputShort(cfg: Config, c: Conn, fs: Fs, line: string, input: string)
    ensures |PutFile(cfg, c, fs, line, input).rest| <= |input|
    ensures forall f :: |PutChunk(cfg, c, fs, f, input).rest| <= |input|
  {
    hide Fields, FieldsN, ParsedSize, Line, FilePath, ChunkPath, Committed;
  }

  lemma {:induction false} OnlyCredentialsMatter(cfg: Config, c: Conn, fs: Fs, line: string, input: string)
    requires Fields(line) == [] || (Fields(line)[0] != "LOGIN" && Fields(line)[0] != "AUTH")
    ensures Handled(cfg, c, fs, line, input).conn == c
  {
    hide Fields, FieldsN, ParsedSize, Sorted, NamesOf, Entries, Line, FileInfo, FilePath, ChunkPath, Committed, Removed, View, Login, Auth;
  }

  /** The account changes only by a login that verifies, chunk access only by the
      right token. */
  lemma {:induction false} RightsAreEarned(cfg: Config, c: Conn, fs: Fs, line: string, input: string)
    ensures var o, f := Handled(cfg, c, fs, line, input).conn, Fields(line);
      (o.user != c.user || o.loggedIn != c.loggedIn ==>
        |f| == 3 && f[0] == "LOGIN" && cfg.verify(f[1], f[2]) && IsValidUsername(f[1]) && o == c.(user := f[1], loggedIn := true))
      && (o.trusted != c.trusted ==> f == ["AUTH", cfg.token] && o == c.(trusted := true))
  {
    hide Fields, IsValidUsername, Stat, PutFile, GetFile, DelFile, List, PutChunk, GetChunk, DelChunk, Line, IsFileCommand, IsChunkCommand;
    if Fields(line) == [] || (Fields(line)[0] != "LOGIN" && Fields(line)[0] != "AUTH") {
      OnlyCredentialsMatter(cfg, c, fs, line, input);
    }
  }

  // ----- a whole connection -----

  /** Serving arbitrary input to its end: the final store and all output. */
  ghost function Served(cfg: Config, c: Conn, fs: Fs, input: string): (r: (Fs, string))
    decreases |input|
  {
    match TakeLine(input, "")
    case None => (fs, "")
    case Some((line, rest)) =>
      TakeShrinks(input, "");
      HandledKeepsInputShort(cfg, c, fs, line, rest);
      var o := Handled(cfg, c, fs, line, rest);
      if !o.go then (o.fs, o.out)
      else
        var (final, out) := Served(cfg, o.conn, o.fs, o.rest);
        (final, o.out + out)
  }

  /** Every login in this connection is to an account in `users`, and chunk access
      is only ever granted when `chunks` is set. */
  ghost predicate Confined(cfg: Config, c: Conn, fs: Fs, input: string, users: set<string>, chunks: bool)
    decreases |input|
  {
    (c.loggedIn ==> c.user in users) && (c.trusted ==> chunks)
    && match TakeLine(input, "")
       case None => true
       case Some((line, rest)) =>
         TakeShrinks(input, "");
         HandledKeepsInputShort(cfg, c, fs, line, rest);
         var o := Handled(cfg, c, fs, line, rest);
         o.go ==> Confined(cfg, o.conn, o.fs, o.rest, users, chunks)
  }

  /** The paths a connection confined to `users` may depend on. */
  ghost predicate Within(root: string, users: set<string>, chunks: bool, path: string) {
    (exists user, name :: user in users && (FilePath(root, user, name) == Some(path) || TagPath(root, user, name) == Some(path)))
    || (chunks && exists id :: ChunkPath(root, id) == Some(path))
  }

  ghost predicate AgreeOn(fs: Fs, fs': Fs, path: string) {
    (path in fs <==> path in fs') && (path in fs ==> fs[path] == fs'[path])
  }

  ghost predicate Alike(root: string, users: set<string>, chunks: bool, fs: Fs, fs': Fs) {
    forall path :: Within(root, users, chunks, path) ==> AgreeOn(fs, fs', path)
  }

  ghost predicate UntouchedOutside(root: string, users: set<string>, chunks: bool, fs: Fs, fs': Fs) {
    forall path :: !Within(root, users, chunks, path) ==> AgreeOn(fs, fs', path)
  }

  ghost predicate Allowed(c: Conn, users: set<string>, chunks: bool) {
    (c.loggedIn ==> c.user in users) && (c.trusted ==> chunks)
  }

  lemma {:induction false} OwnPaths(root: string, users: set<string>, chunks: bool, user: string, name: string)
    requires user in users && FilePath(root, user, name).Some?
    ensures TagPath(root, user, name).Some?
    ensures Within(root, users, chunks, FilePath(root, user, name).value)
    ensures Within(root, users, chunks, TagPath(root, user, name).value)
  {
    FileShape(root, user, name);
  }

  lemma {:induction false} ChunkPaths(root: string, users: set<string>, id: string)
    requires ChunkPath(root, id).Some?
    ensures Within(root, users, true, ChunkPath(root, id).value)
  {
  }

  /** One line of input: what it answers, how much it reads and what it makes of
      the session depend only on the store's permitted part; the permitted part
      changes alike and the rest does not change at all. */
  ghost predicate SameStep(cfg: Config, users: set<string>, chunks: bool, fs: Fs, fs': Fs, o: Outcome, o': Outcome) {
    o'.conn == o.conn && o'.rest == o.rest && o'.out == o.out && o'.go == o.go
    && Alike(cfg.root, users, chunks, o.fs, o'.fs) && UntouchedOutside(cfg.root, users, chunks, fs, o.fs)
  }

  lemma {:induction false} PlainStep(cfg: Config, users: set<string>, chunks: bool, c: Conn, fs: Fs, fs': Fs)
    requires Alike(cfg.root, users, chunks, fs, fs')
    ensures forall rest, out, go :: SameStep(cfg, users, chunks, fs, fs', Outcome(c, fs, rest, out, go), Outcome(c, fs', rest, out, go))
  {
  }

  lemma {:induction false} AuthStep(cfg: Config, users: set<string>, chunks: bool, c: Conn, fs: Fs, fs': Fs, f: seq<string>, input: string)
    requires Alike(cfg.root, users, chunks, fs, fs')
    ensures SameStep(cfg, users, chunks, fs, fs', Login(cfg, c, fs, f, input), Login(cfg, c, fs', f, input))
    ensures SameStep(cfg, users, chunks, fs, fs', Auth(cfg, c, fs, f, input), Auth(cfg, c, fs', f, input))
  {
    hide Line, AccountDir, Alike, UntouchedOutside;
    Unchanged(cfg.root, users, chunks, fs);
  }

  lemma {:induction false} FileReadStep(cfg: Config, users: set<string>, chunks: bool, c: Conn, fs: Fs, fs': Fs, line: string, input: string)
    requires Alike(cfg.root, users, chunks, fs, fs') && c.user in users
    ensures SameStep(cfg, users, chunks, fs, fs', Stat(cfg, c, fs, line, input), Stat(cfg, c, fs', line, input))
    ensures SameStep(cfg, users, chunks, fs, fs', GetFile(cfg, c, fs, line, input), GetFile(cfg, c, fs', line, input))
  {
    var f := FieldsN(line, 2);
    if |f| == 2 && FilePath(cfg.root, c.user, f[1]).Some? {
      OwnPaths(cfg.root, users, chunks, c.user, f[1]);
    }
  }

  lemma {:induction false} PutFileStep(cfg: Config, users: set<string>, chunks: bool, c: Conn, fs: Fs, fs': Fs, line: string, input: string)
    requires Alike(cfg.root, users, chunks, fs, fs') && c.user in users
    ensures SameStep(cfg, users, chunks, fs, fs', PutFile(cfg, c, fs, line, input), PutFile(cfg, c, fs', line, input))
  {
    hide FieldsN, ParsedSize, Line, FilePath, Committed, Alike, UntouchedOutside;
    Unchanged(cfg.root, users, chunks, fs);
    var f := FieldsN(line, 4);
    if |f| == 4 && FilePath(cfg.root, c.user, f[3]).Some? {
      forall body { CommitStep(cfg.root, users, chunks, fs, fs', c.user, f[3], body, f[2]); }
    }
  }

  lemma {:induction false} CommitStep(root: string, users: set<string>, chunks: bool, fs: Fs, fs': Fs,
                                      user: string, name: string, body: string, tag: string)
    requires Alike(root, users, chunks, fs, fs') && user in users && FilePath(root, user, name).Some?
    ensures Alike(root, users, chunks, Committed(fs, root, user, name, body, tag), Committed(fs', root, user, name, body, tag))
    ensures UntouchedOutside(root, users, chunks, fs, Committed(fs, root, user, name, body, tag))
  {
    hide IsValidUsername, IsSafeName;
    OwnPaths(root, users, chunks, user, name);
  }

  lemma {:induction false} DelFileStep(cfg: Config, users: set<string>, chunks: bool, c: Conn, fs: Fs, fs': Fs, line: string, input: string)
    requires Alike(cfg.root, users, chunks, fs, fs') && c.user in users
    ensures SameStep(cfg, users, chunks, fs, fs', DelFile(cfg, c, fs, line, input), DelFile(cfg, c, fs', line, input))
  {
    var f := FieldsN(line, 2);
    if |f| == 2 && FilePath(cfg.root, c.user, f[1]).Some? {
      OwnPaths(cfg.root, users, chunks, c.user, f[1]);
    }
  }

  lemma {:induction false} ChunkWritten(root: string, users: set<string>, fs: Fs, fs': Fs, id: string, body: string)
    requires Alike(root, users, true, fs, fs') && ChunkPath(root, id).Some?
    ensures var path := ChunkPath(root, id).value;
      Alike(root, users, true, fs[path := body], fs'[path := body]) && UntouchedOutside(root, users, true, fs, fs[path := body])
  {
    hide IsSafeChunkId;
    ChunkPaths(root, users, id);
  }

  lemma {:induction false} PutChunkStep(cfg: Config, users: set<string>, c: Conn, fs: Fs, fs': Fs, f: seq<string>, input: string)
    requires Alike(cfg.root, users, true, fs, fs')
    ensures SameStep(cfg, users, true, fs, fs', PutChunk(cfg, c, fs, f, input), PutChunk(cfg, c, fs', f, input))
  {
    hide ParsedSize, Line, ChunkPath, Alike, UntouchedOutside;
    Unchanged(cfg.root, users, true, fs);
    if |f| == 3 && ChunkPath(cfg.root, f[1]).Some? && ParsedSize(f[2], MAX_TRANSFER).Some? {
      var size := ParsedSize(f[2], MAX_TRANSFER).value;
      if size <= |input| {
        ChunkWritten(cfg.root, users, fs, fs', f[1], input[..size]);
      }
    }
  }

  lemma {:induction false} GetChunkStep(cfg: Config, users: set<string>, c: Conn, fs: Fs, fs': Fs, f: seq<string>, input: string)
    requires Alike(cfg.root, users, true, fs, fs')
    ensures SameStep(cfg, users, true, fs, fs', GetChunk(cfg, c, fs, f, input), GetChunk(cfg, c, fs', f, input))
  {
    hide ParsedSize, Line, ToDecimal, IsSafeChunkId;
    if |f| >= 2 && ChunkPath(cfg.root, f[1]).Some? {
      ChunkPaths(cfg.root, users, f[1]);
    }
  }

  lemma {:induction false} DelChunkStep(cfg: Config, users: set<string>, c: Conn, fs: Fs, fs': Fs, f: seq<string>, input: string)
    requires Alike(cfg.root, users, true, fs, fs')
    ensures SameStep(cfg, users, true, fs, fs', DelChunk(cfg, c, fs, f, input), DelChunk(cfg, c, fs', f, input))
  {
    hide ParsedSize, Line, ToDecimal, IsSafeChunkId;
    if |f| >= 2 && ChunkPath(cfg.root, f[1]).Some? {
      ChunkPaths(cfg.root, users, f[1]);
    }
  }

  lemma {:induction false} SameEntries(cfg: Config, users: set<string>, chunks: bool, user: string, fs: Fs, fs': Fs, names: seq<string>)
    requires Alike(cfg.root, users, chunks, fs, fs') && user in users
    ensures Entries(cfg, fs, user, names) == Entries(cfg, fs', user, names)
  {
    if names != [] {
      if FilePath(cfg.root, user, names[0]).Some? {
        OwnPaths(cfg.root, users, chunks, user, names[0]);
      }
      SameEntries(cfg, users, chunks, user, fs, fs', names[1..]);
    }
  }

  lemma {:induction false} ListStep(cfg: Config, users: set<string>, chunks: bool, c: Conn, fs: Fs, fs': Fs, input: string)
    requires Alike(cfg.root, users, chunks, fs, fs') && c.user in users
    ensures SameStep(cfg, users, chunks, fs, fs', List(cfg, c, fs, input), List(cfg, c, fs', input))
  {
    forall name
      ensures name in NamesOf(fs, cfg.root, c.user) <==> name in NamesOf(fs', cfg.root, c.user)
    {
      NamesAreViews(fs, cfg.root, c.user, name);
      NamesAreViews(fs', cfg.root, c.user, name);
      if FilePath(cfg.root, c.user, name).Some? {
        OwnPaths(cfg.root, users, chunks, c.user, name);
      }
    }
    assert NamesOf(fs, cfg.root, c.user) == NamesOf(fs', cfg.root, c.user);
    SameEntries(cfg, users, chunks, c.user, fs, fs', Sorted(NamesOf(fs, cfg.root, c.user)));
  }

  lemma {:induction false} HandledStep(cfg: Config, users: set<string>, chunks: bool, c: Conn, fs: Fs, fs': Fs, line: string, input: string)
    requires Allowed(c, users, chunks) && Alike(cfg.root, users, chunks, fs, fs')
    ensures SameStep(cfg, users, chunks, fs, fs', Handled(cfg, c, fs, line, input), Handled(cfg, c, fs', line, input))
  {
    hide Login, Auth, Stat, PutFile, GetFile, DelFile, PutChunk, GetChunk, DelChunk, List, Fields, SameStep, Alike;
    PlainStep(cfg, users, chunks, c, fs, fs');
    AuthStep(cfg, users, chunks, c, fs, fs', Fields(line), input);
    if c.loggedIn {
      FileReadStep(cfg, users, chunks, c, fs, fs', line, input);
      PutFileStep(cfg, users, chunks, c, fs, fs', line, input);
      DelFileStep(cfg, users, chunks, c, fs, fs', line, input);
      ListStep(cfg, users, chunks, c, fs, fs', input);
    }
    if c.trusted {
      PutChunkStep(cfg, users, c, fs, fs', Fields(line), input);
      GetChunkStep(cfg, users, c, fs, fs', Fields(line), input);
      DelChunkStep(cfg, users, c, fs, fs', Fields(line), input);
    }
  }

  /** A request line of the web interface, which shares the port. */
  predicate LooksLikeHttp(line: string) {
    "GET " <= line || "POST " <= line || "PUT " <= line || "DELETE " <= line || "HEAD " <= line || "OPTIONS " <= line
  }

  /** The first line decides: such a connection is the web interface's. */
  predicate ForWeb(input: string) {
    match TakeLine(input, "") case Some((line, _)) => LooksLikeHttp(line) case None => false
  }

  /** Over every sequence of input bytes, well-formed or not, that does not open like
      a web request: a connection whose successful logins are to `users` (and whose
      AUTH, if any, counts for chunks) answers as if nothing else were stored, and
      changes nothing else. */
  lemma {:induction false} ConnectionConfined(cfg: Config, users: set<string>, chunks: bool, fs: Fs, fs': Fs, input: string)
    requires !ForWeb(input) && Confined(cfg, FRESH, fs, input, users, chunks) && Alike(cfg.root, users, chunks, fs, fs')
    ensures var (final, out), (final', out') := Served(cfg, FRESH, fs, input), Served(cfg, FRESH, fs', input);
      out == out' && Alike(cfg.root, users, chunks, final, final') && UntouchedOutside(cfg.root, users, chunks, fs, final)
  {
    ServedConfined(cfg, users, chunks, FRESH, fs, fs', input);
  }

  lemma {:induction false} ServedConfined(cfg: Config, users: set<string>, chunks: bool, c: Conn, fs: Fs, fs': Fs, input: string)
    requires Confined(cfg, c, fs, input, users, chunks) && Alike(cfg.root, users, chunks, fs, fs')
    ensures var (final, out), (final', out') := Served(cfg, c, fs, input), Served(cfg, c, fs', input);
      out == out' && Alike(cfg.root, users, chunks, final, final') && UntouchedOutside(cfg.root, users, chunks, fs, final)
    decreases |input|
  {
    hide Handled, Alike, UntouchedOutside;
    match TakeLine(input, "")
    case None => Unchanged(cfg.root, users, chunks, fs);
    case Some((line, rest)) =>
      TakeShrinks(input, "");
      HandledKeepsInputShort(cfg, c, fs, line, rest);
      HandledStep(cfg, users, chunks, c, fs, fs', line, rest);
      var o, o' := Handled(cfg, c, fs, line, rest), Handled(cfg, c, fs', line, rest);
      if o.go {
        ServedConfined(cfg, users, chunks, o.conn, o.fs, o'.fs, o.rest);
        OutsideTwice(cfg.root, users, chunks, fs, o.fs, Served(cfg, o.conn, o.fs, o.rest).0);
      }
  }

  lemma {:induction false} Unchanged(root: string, users: set<string>, chunks: bool, fs: Fs)
    ensures UntouchedOutside(root, users, chunks, fs, fs)
  {
  }

  lemma {:induction false} OutsideTwice(root: string, users: set<string>, chunks: bool, a: Fs, b: Fs, c: Fs)
    requires UntouchedOutside(root, users, chunks, a, b) && UntouchedOutside(root, users, chunks, b, c)
    ensures UntouchedOutside(root, users, chunks, a, c)
  {
  }

  /** No line leaves anything at an unused temporary path. */
  lemma {:induction false} HandledKeepsTemp(cfg: Config, c: Conn, fs: Fs, line: string, input: string, hex: string)
    requires TempPath(cfg.root, hex) !in fs
    ensures TempPath(cfg.root, hex) !in Handled(cfg, c, fs, line, input).fs
  {
    hide Handled, TempPath;
    HandledStep(cfg, {c.user}, true, c, fs, fs, line, input);
    TempIsApart(cfg.root, hex);
    assert !Within(cfg.root, {c.user}, true, TempPath(cfg.root, hex));
    assert AgreeOn(fs, Handled(cfg, c, fs, line, input).fs, TempPath(cfg.root, hex));
  }

  // ----- the session object -----

  class Disk {
    var fs: Fs

    constructor (fs: Fs)
      ensures this.fs == fs
    {
      this.fs := fs;
    }
  }

  class Session {
    const cfg: Config
    const inbound: Pipe
    const outbound: Pipe
    const disk: Disk
    var user: string
    var loggedIn: bool
    var trusted: bool

    constructor (cfg: Config, inbound: Pipe, outbound: Pipe, disk: Disk)
      ensures this.cfg == cfg && this.inbound == inbound && this.outbound == outbound && this.disk == disk
      ensures State() == FRESH
    {
      this.cfg, this.inbound, this.outbound, this.disk := cfg, inbound, outbound, disk;
      user, loggedIn, trusted := "", false, false;
    }

    function State(): Conn
      reads this
    {
      Conn(user, loggedIn, trusted)
    }

    /** What a handler leaves behind is what the outcome says. */
    twostate predicate Did(o: Outcome, go: bool)
      reads this, inbound, outbound, disk
    {
      go == o.go && State() == o.conn && disk.fs == o.fs && inbound.data == o.rest && outbound.data == old(outbound.data) + o.out
    }

    method Reply(line: string)
      requires inbound != outbound
      modifies outbound
      ensures outbound.data == old(outbound.data) + Line(line)
    {
      outbound.SendLine(line);
    }

    method Refuse(reason: string)
      requires inbound != outbound
      modifies outbound
      ensures outbound.data == old(outbound.data) + Line("ERR " + reason)
    {
      Reply("ERR " + reason);
    }

    /** Streams `size` bytes off the wire into `path`, a buffer at a time. */
    method ReceiveToFile(path: string, size: nat) returns (ok: bool)
      requires inbound != outbound
      modifies inbound, disk
      ensures ok <==> size <= |old(inbound.data)|
      ensures ok ==> disk.fs == old(disk.fs)[path := old(inbound.data)[..size]] && inbound.data == old(inbound.data)[size..]
      ensures !ok ==> inbound.data == "" && path in disk.fs && disk.fs == old(disk.fs)[path := disk.fs[path]]
    {
      ghost var all := inbound.data;
      disk.fs := disk.fs[path := ""];
      var left := size;
      while left > 0
        invariant 0 <= left <= size
        invariant size - left <= |all| && inbound.data == all[size - left..]
        invariant disk.fs == old(disk.fs)[path := all[..size - left]]
      {
        var want := if left < IO_BUFFER then left else IO_BUFFER;
        var got, bytes := inbound.Recv(want);
        if !got {
          return false;
        }
        assert all[..size - left] + bytes == all[..size - left + want];
        disk.fs := disk.fs[path := disk.fs[path] + bytes];
        left := left - want;
      }
      return true;
    }

    /** Reads a stored file a buffer at a time onto the wire. */
    method SendFromFile(path: string, size: nat)
      requires inbound != outbound && path in disk.fs && size == |disk.fs[path]|
      modifies outbound
      ensures outbound.data == old(outbound.data) + disk.fs[path]
    {
      var body := disk.fs[path];
      var left := size;
      while left > 0
        invariant 0 <= left <= size
        invariant outbound.data == old(outbound.data) + body[..size - left]
      {
        var want := if left < IO_BUFFER then left else IO_BUFFER;
        outbound.Send(body[size - left..size - left + want]);
        assert body[..size - left] + body[size - left..size - left + want] == body[..size - left + want];
        left := left - want;
      }
      assert body[..size] == body;
    }

    method DoLogin(f: seq<string>) returns (go: bool)
      requires inbound != outbound
      modifies this, outbound
      ensures Did(Login(cfg, old(State()), old(disk.fs), f, old(inbound.data)), go)
    {
      if |f| != 3 {
        Refuse("malformed-login");
        return true;
      }
      if !cfg.verify(f[1], f[2]) {
        Refuse("bad-credentials");
        return false;
      }
      if AccountDir(cfg.root, f[1]).None? {
        Refuse("account-storage");
        return true;
      }
      user := f[1];
      loggedIn := true;
      Reply("OK");
      return true;
    }

    method DoAuth(f: seq<string>) returns (go: bool)
      requires inbound != outbound
      modifies this, outbound
      ensures Did(Auth(cfg, old(State()), old(disk.fs), f, old(inbound.data)), go)
    {
      if |f| != 2 {
        Refuse("malformed-auth");
        return true;
      }
      if f[1] != cfg.token {
        Refuse("bad-token");
        return false;
      }
      trusted := true;
      Reply("OK");
      return true;
    }

    method DoStat(line: string) returns (go: bool)
      requires inbound != outbound
      modifies outbound
      ensures Did(Stat(cfg, old(State()), old(disk.fs), line, old(inbound.data)), go)
    {
      hide FieldsN, FileInfo, ToDecimal;
      var f := SplitN(line, 2);
      if |f| != 2 {
        Refuse("malformed-stat");
        return true;
      }
      var info := FileInfo(disk.fs, cfg.root, user, f[1]);
      if info == None {
        Reply("NONE");
        return true;
      }
      var (size, tag) := info.value;
      Reply("META " + ToDecimal(size) + " " + (if tag == "" then "-" else tag));
      return true;
    }

    /** Puts the finished temporary file in its final place, in one step, or, when the
        file system refuses, removes it. */
    method Rename(temp: string, path: string, ghost fs: Fs, ghost body: string) returns (moved: bool)
      requires temp !in fs && temp != path && disk.fs == fs[temp := body]
      modifies disk
      ensures moved == cfg.renames(path) && disk.fs == if moved then fs[path := body] else fs
    {
      moved := cfg.renames(path);
      disk.fs := if moved then (disk.fs - {temp})[path := disk.fs[temp]] else disk.fs - {temp};
    }

    method WriteTag(name: string, tag: string, ghost fs: Fs, ghost body: string)
      requires FilePath(cfg.root, user, name).Some? && disk.fs == fs[FilePath(cfg.root, user, name).value := body]
      modifies disk
      ensures disk.fs == Committed(fs, cfg.root, user, name, body, tag)
    {
      disk.fs := disk.fs[TagPath(cfg.root, user, name).value := tag + "\n"];
    }

    /** The body goes to a temporary file first; rename and tag come last, so a
        broken transfer leaves the stored file as it was. */
    method DoPutFile(line: string, temp: string) returns (go: bool)
      requires inbound != outbound && temp !in disk.fs && forall u, n :: Some(temp) != FilePath(cfg.root, u, n) && Some(temp) != TagPath(cfg.root, u, n)
      modifies inbound, outbound, disk
      ensures Did(PutFile(cfg, old(State()), old(disk.fs), line, old(inbound.data)), go)
    {
      hide FieldsN, ParsedSize, FilePath, TagPath, Committed;
      var f := SplitN(line, 4);
      if |f| != 4 {
        Refuse("malformed-putfile");
        return true;
      }
      var size := ParseSize(f[1], MAX_TRANSFER);
      if size == None {
        Refuse("bad-size");
        return true;
      }
      var path := FilePath(cfg.root, user, f[3]);
      if path == None {
        Refuse("bad-name");
        return true;
      }
      ghost var fs := disk.fs;
      var ok := ReceiveToFile(temp, size.value);
      if !ok {
        disk.fs := disk.fs - {temp};
        assert disk.fs == fs;
        return false;
      }
      var moved := Rename(temp, path.value, fs, old(inbound.data)[..size.value]);
      if !moved {
        Refuse("store-failed");
        return true;
      }
      WriteTag(f[3], f[2], fs, old(inbound.data)[..size.value]);
      Reply("OK");
      return true;
    }

    method DoGetFile(line: string) returns (go: bool)
      requires inbound != outbound
      modifies outbound
      ensures Did(GetFile(cfg, old(State()), old(disk.fs), line, old(inbound.data)), go)
    {
      hide FieldsN, IsValidUsername, IsSafeName, ToDecimal;
      var f := SplitN(line, 2);
      if |f| != 2 {
        Refuse("malformed-getfile");
        return true;
      }
      var path := FilePath(cfg.root, user, f[1]);
      if path == None || path.value !in disk.fs {
        Reply("NONE");
        return true;
      }
      var size := |disk.fs[path.value]|;
      Reply("DATA " + ToDecimal(size));
      SendFromFile(path.value, size);
      return true;
    }

    method DoDelFile(line: string) returns (go: bool)
      requires inbound != outbound
      modifies outbound, disk
      ensures Did(DelFile(cfg, old(State()), old(disk.fs), line, old(inbound.data)), go)
    {
      hide FieldsN, IsValidUsername, IsSafeName;
      var f := SplitN(line, 2);
      if |f| != 2 {
        Refuse("malformed-delfile");
        return true;
      }
      var removed := false;
      var path := FilePath(cfg.root, user, f[1]);
      if path.Some? {
        removed := path.value in disk.fs;
        disk.fs := disk.fs - {path.value};
        disk.fs := disk.fs - {TagPath(cfg.root, user, f[1]).value};
      }
      Reply(if removed then "OK" else "NONE");
      return true;
    }

    method DoPutChunk(f: seq<string>, temp: string) returns (go: bool)
      requires inbound != outbound && temp !in disk.fs && forall id :: Some(temp) != ChunkPath(cfg.root, id)
      modifies inbound, outbound, disk
      ensures Did(PutChunk(cfg, old(State()), old(disk.fs), f, old(inbound.data)), go)
    {
      hide ParsedSize, IsSafeChunkId;
      if |f| != 3 {
        Refuse("malformed-putchunk");
        return true;
      }
      var path := ChunkPath(cfg.root, f[1]);
      if path == None {
        Refuse("bad-chunk-id");
        return true;
      }
      var size := ParseSize(f[2], MAX_TRANSFER);
      if size == None {
        Refuse("bad-size");
        return true;
      }
      ghost var fs := disk.fs;
      var ok := ReceiveToFile(temp, size.value);
      if !ok {
        disk.fs := disk.fs - {temp};
        assert disk.fs == fs;
        return false;
      }
      var moved := Rename(temp, path.value, fs, old(inbound.data)[..size.value]);
      if !moved {
        Refuse("store-failed");
        return true;
      }
      Reply("OK");
      return true;
    }

    method DoGetChunk(f: seq<string>) returns (go: bool)
      requires inbound != outbound
      modifies outbound
      ensures Did(GetChunk(cfg, old(State()), old(disk.fs), f, old(inbound.data)), go)
    {
      if |f| != 2 {
        Refuse("malformed-getchunk");
        return true;
      }
      var path := ChunkPath(cfg.root, f[1]);
      if path == None || path.value !in disk.fs {
        Reply("NONE");
        return true;
      }
      var size := |disk.fs[path.value]|;
      Reply("DATA " + ToDecimal(size));
      SendFromFile(path.value, size);
      return true;
    }

    method DoDelChunk(f: seq<string>) returns (go: bool)
      requires inbound != outbound
      modifies outbound, disk
      ensures Did(DelChunk(cfg, old(State()), old(disk.fs), f, old(inbound.data)), go)
    {
      if |f| != 2 {
        Refuse("malformed-delchunk");
        return true;
      }
      var path := ChunkPath(cfg.root, f[1]);
      if path == None {
        Refuse("bad-chunk-id");
        return true;
      }
      disk.fs := disk.fs - {path.value};
      Reply("OK");
      return true;
    }

    method DoList() returns (go: bool)
      requires inbound != outbound
      modifies outbound
      ensures Did(List(cfg, old(State()), old(disk.fs), old(inbound.data)), go)
    {
      hide Entry, Entries, NamesOf, Sorted, ToDecimal;
      var files := SortNames(NamesOf(disk.fs, cfg.root, user));
      var head := "COUNT " + ToDecimal(|files|);
      Reply(head);
      SendEntries(files);
      ghost var tail := Entries(cfg, disk.fs, user, files);
      assert old(outbound.data) + Line(head) + tail == old(outbound.data) + (Line(head) + tail);
      return true;
    }

    method SendEntries(files: seq<string>)
      requires inbound != outbound
      modifies outbound
      ensures outbound.data == old(outbound.data) + Entries(cfg, disk.fs, user, files)
    {
      hide Entry, Entries;
      ghost var target := outbound.data + Entries(cfg, disk.fs, user, files);
      assert files[0..] == files;
      for i := 0 to |files|
        invariant outbound.data + Entries(cfg, disk.fs, user, files[i..]) == target
      {
        EntriesStep(cfg, disk.fs, user, files, i, outbound.data);
        Reply(Entry(cfg, disk.fs, user, files[i]));
      }
      NoEntries(cfg, disk.fs, user, files, outbound.data);
    }

    /** Dispatches one line. `hex` names the temporary file of a transfer. */
    method Handle(line: string, hex: string) returns (go: bool)
      requires inbound != outbound && TempPath(cfg.root, hex) !in disk.fs
      modifies this, inbound, outbound, disk
      ensures Did(Handled(cfg, old(State()), old(disk.fs), line, old(inbound.data)), go)
    {
      hide Login, Auth, Stat, PutFile, GetFile, DelFile, PutChunk, GetChunk, DelChunk, List, Fields, Line;
      var f := Split(line);
      if f == [] {
        return true;
      }
      var cmd := f[0];
      if cmd == "HELLO" {
        Reply("OK pcs/4");
        return true;
      }
      if cmd == "PING" {
        Reply("PONG");
        return true;
      }
      if cmd == "QUIT" {
        Reply("BYE");
        return false;
      }
      if cmd == "LOGIN" {
        go := DoLogin(f);
      } else if cmd == "AUTH" {
        go := DoAuth(f);
      } else if IsFileCommand(cmd) && !loggedIn {
        Refuse("login-required");
        go := true;
      } else if IsChunkCommand(cmd) && !trusted {
        Refuse("token-required");
        go := true;
      } else {
        go := HandleTransfer(line, f, hex);
      }
    }

    method HandleTransfer(line: string, f: seq<string>, hex: string) returns (go: bool)
      requires inbound != outbound && TempPath(cfg.root, hex) !in disk.fs && f == Fields(line) && f != []
      requires f[0] !in {"HELLO", "PING", "QUIT", "LOGIN", "AUTH"}
      requires (IsFileCommand(f[0]) ==> loggedIn) && (IsChunkCommand(f[0]) ==> trusted)
      modifies this, inbound, outbound, disk
      ensures Did(Handled(cfg, old(State()), old(disk.fs), line, old(inbound.data)), go)
    {
      hide Login, Auth, Stat, PutFile, GetFile, DelFile, PutChunk, GetChunk, DelChunk, List, Fields, Line;
      var cmd, temp := f[0], TempPath(cfg.root, hex);
      TempIsApart(cfg.root, hex);
      if cmd == "STAT" {
        go := DoStat(line);
      } else if cmd == "PUTFILE" {
        go := DoPutFile(line, temp);
      } else if cmd == "GETFILE" {
        go := DoGetFile(line);
      } else if cmd == "DELFILE" {
        go := DoDelFile(line);
      } else if cmd == "PUTCHUNK" {
        go := DoPutChunk(f, temp);
      } else if cmd == "GETCHUNK" {
        go := DoGetChunk(f);
      } else if cmd == "DELCHUNK" {
        go := DoDelChunk(f);
      } else if cmd == "LIST" {
        go := DoList();
      } else {
        Refuse("unknown-command");
        go := true;
      }
    }

    /** One turn of the connection loop. */
    method Turn(hex: string) returns (go: bool)
      requires inbound != outbound && TempPath(cfg.root, hex) !in disk.fs
      modifies this, inbound, outbound, disk
      ensures match TakeLine(old(inbound.data), "")
        case None => !go && State() == old(State()) && disk.fs == old(disk.fs) && outbound.data == old(outbound.data)
        case Some((line, rest)) => Did(Handled(cfg, old(State()), old(disk.fs), line, rest), go)
    {
      hide Handled;
      var ok, line := inbound.ReadLine();
      if !ok {
        return false;
      }
      go := Handle(line, hex);
    }

    /** The connection loop: serves everything that comes, or leaves the connection to
        the web interface. */
    method Run(hex: string) returns (web: bool)
      requires inbound != outbound && TempPath(cfg.root, hex) !in disk.fs
      modifies this, inbound, outbound, disk
      ensures web <==> ForWeb(old(inbound.data))
      ensures web ==> State() == old(State()) && disk.fs == old(disk.fs) && outbound.data == old(outbound.data)
      ensures !web ==> var (fs, out) := Served(cfg, old(State()), old(disk.fs), old(inbound.data));
        disk.fs == fs && outbound.data == old(outbound.data) + out
    {
      hide Handled, LooksLikeHttp;
      ghost var all := Served(cfg, State(), disk.fs, inbound.data);
      ghost var sent := outbound.data;
      var ok, line := inbound.ReadLine();
      if !ok {
        return false;
      }
      if LooksLikeHttp(line) {
        return true;
      }
      web := false;
      ghost var c, fs, rest := State(), disk.fs, inbound.data;
      TakeShrinks(old(inbound.data), "");
      HandledKeepsInputShort(cfg, c, fs, line, rest);
      HandledKeepsTemp(cfg, c, fs, line, rest, hex);
      var go := Handle(line, hex);
      ghost var out := Handled(cfg, c, fs, line, rest).out;
      while go
        invariant TempPath(cfg.root, hex) !in disk.fs && outbound.data == sent + out
        invariant all == if go then Continued(out, Served(cfg, State(), disk.fs, inbound.data)) else (disk.fs, out)
        decreases |inbound.data|, go
      {
        c, fs := State(), disk.fs;
        ghost var input := inbound.data;
        ServedStep(cfg, c, fs, input, out);
        ok, line := inbound.ReadLine();
        if ok {
          TakeShrinks(input, "");
          rest := inbound.data;
          HandledKeepsInputShort(cfg, c, fs, line, rest);
          HandledKeepsTemp(cfg, c, fs, line, rest, hex);
          go := Handle(line, hex);
          out := out + Handled(cfg, c, fs, line, rest).out;
        } else {
          go := false;
        }
      }
    }
  }

  /** What was sent before, and what is still to be sent. */
  function Continued(out: string, rest: (Fs, string)): (Fs, string) {
    (rest.0, out + rest.1)
  }

  lemma {:induction false} ServedStep(cfg: Config, c: Conn, fs: Fs, input: string, out: string)
    ensures Continued(out, Served(cfg, c, fs, input)) == match TakeLine(input, "")
      case None => (fs, out)
      case Some((line, rest)) =>
        var o := Handled(cfg, c, fs, line, rest);
        if o.go then Continued(out + o.out, Served(cfg, o.conn, o.fs, o.rest)) else (o.fs, out + o.out)
  {
    hide Handled, TakeLine;
    match TakeLine(input, "")
    case None => assert out + "" == out;
    case Some((line, rest)) =>
      var o := Handled(cfg, c, fs, line, rest);
      if o.go {
        var (final, more) := Served(cfg, o.conn, o.fs, o.rest);
        assert out + (o.out + more) == out + o.out + more;
      }
  }

  lemma {:induction false} NoEntries(cfg: Config, fs: Fs, user: string, files: seq<string>, sent: string)
    ensures sent + Entries(cfg, fs, user, files[|files|..]) == sent
  {
  }

  lemma {:induction false} EntriesStep(cfg: Config, fs: Fs, user: string, files: seq<string>, i: nat, sent: string)
    requires i < |files|
    ensures sent + Entries(cfg, fs, user, files[i..]) == sent + Line(Entry(cfg, fs, user, files[i])) + Entries(cfg, fs, user, files[i + 1..])
  {
    hide Entry;
    assert files[i..][1..] == files[i + 1..];
  }

  lemma {:induction false} TempIsApart(root: string, hex: string)
    ensures forall u, n :: Some(TempPath(root, hex)) != FilePath(root, u, n) && Some(TempPath(root, hex)) != TagPath(root, u, n)
    ensures forall id :: Some(TempPath(root, hex)) != ChunkPath(root, id)
  {
    forall u, n
      ensures Some(TempPath(root, hex)) != FilePath(root, u, n) && Some(TempPath(root, hex)) != TagPath(root, u, n)
    {
      if FilePath(root, u, n).Some? {
        AreasDisjoint(root, u, n, "", hex);
      }
    }
    forall id
      ensures Some(TempPath(root, hex)) != ChunkPath(root, id)
    {
      if ChunkPath(root, id).Some? {
        assert ChunkPath(root, id).value[|root| + 1] == 'c' && TempPath(root, hex)[|root| + 1] == 't';
      }
    }
  }
}

/** The client's end of a connection, and what a whole conversation amounts to:
    a simple map from names to (bytes, tag). */
module Remote {
  import opened Wrappers
  import opened Protocol
  import opened SafeName
  import opened Manifests
  import opened Wire
  import opened Store
  import opened Session
  import opened Text
  import SessionEffects

  const MAX_TAG: nat := 3000

  /** Names the grammar carries unchanged. */
  predicate ValidName(name: string) {
    IsSafeName(name) && name[0] != ' '
  }

  predicate TagText(tag: string) {
    Token(tag) && '\r' !in tag && |tag| <= MAX_TAG
  }

  predicate ValidTag(tag: string) {
    tag == "" || (TagText(tag) && tag != "-")
  }

  /** An absent tag travels as a dash. */
  function WireTag(tag: string): string {
    if tag == "" then "-" else tag
  }

  // ----- requests, as the server understands them -----

  lemma {:induction false} NameAlone(name: string)
    requires ValidName(name)
    ensures name != "" && name[0] != ' ' && TrimLeft(name) == name && FieldsN(name, 1) == [name]
    ensures '\n' !in name && '\r' !in name && |name| <= 255
  {
  }

  lemma {:induction false} SafeAlone(name: string)
    requires IsSafeName(name)
    ensures FieldsN(name, 1) == if TrimLeft(name) == "" then [] else [TrimLeft(name)]
    ensures '\n' !in name && '\r' !in name && |name| <= 255
  {
  }

  lemma {:induction false} NameRequest(cmd: string, name: string)
    requires Word(cmd) && Sendable(cmd) && |cmd| <= 100 && ValidName(name)
    ensures var line := cmd + " " + name;
      Sendable(line) && Fields(line) != [] && Fields(line)[0] == cmd && FieldsN(line, 2) == [cmd, name]
  {
    hide Fields, FieldsN, ValidName;
    NameAlone(name);
    WordThen(cmd, name);
    assert FieldsN(cmd + " " + name, 2) == [cmd] + FieldsN(name, 1);
  }

  lemma {:induction false} DecimalText(n: nat)
    requires n < U64
    ensures Word(ToDecimal(n)) && '\n' !in ToDecimal(n) && '\r' !in ToDecimal(n) && |ToDecimal(n)| <= 20
  {
    assert Word(ToDecimal(n)) && Digits(ToDecimal(n));
    ParsePrinted(n, n);
    hide ToDecimal;
  }

  function PutRequest(name: string, size: nat, tag: string): string {
    "PUTFILE" + " " + (ToDecimal(size) + " " + (tag + " " + name))
  }

  lemma {:induction false} RestAlone(name: string)
    requires name != "" && name[0] != ' '
    ensures FieldsN(name, 1) == [name]
  {
  }

  lemma {:induction false} PutRequestSplit(name: string, size: nat, tag: string)
    requires name != "" && name[0] != ' ' && Word(tag) && size < U64
    ensures var line := PutRequest(name, size, tag);
      Fields(line) != [] && Fields(line)[0] == "PUTFILE" && FieldsN(line, 4) == ["PUTFILE", ToDecimal(size), tag, name]
  {
    hide Fields, FieldsN, ToDecimal, TrimLeft;
    RestAlone(name);
    DecimalText(size);
    WordThen(tag, name);
    WordThen(ToDecimal(size), tag + " " + name);
    WordThen("PUTFILE", ToDecimal(size) + " " + (tag + " " + name));
    assert FieldsN(tag + " " + name, 2) == [tag] + FieldsN(name, 1);
    assert FieldsN(ToDecimal(size) + " " + (tag + " " + name), 3) == [ToDecimal(size)] + FieldsN(tag + " " + name, 2);
  }

  lemma {:induction false} PutRequestFields(name: string, size: nat, tag: string)
    requires ValidName(name) && size <= MAX_TRANSFER && TagText(tag)
    ensures var line := PutRequest(name, size, tag);
      Sendable(line) && Fields(line) != [] && Fields(line)[0] == "PUTFILE" && FieldsN(line, 4) == ["PUTFILE", ToDecimal(size), tag, name]
  {
    hide Fields, FieldsN, ValidName, ToDecimal;
    NameAlone(name);
    DecimalText(size);
    PutRequestSplit(name, size, tag);
  }

  /** A transfer that got past the checks consumes exactly its own body, whether or
      not the file system then lets it be renamed into place. */
  lemma {:induction false} ServesPut(cfg: Config, c: Conn, fs: Fs, name: string, body: string, tag: string, rest: string)
    requires c.loggedIn && IsValidUsername(c.user) && ValidName(name) && TagText(tag) && |body| <= MAX_TRANSFER
    ensures FilePath(cfg.root, c.user, name).Some?
    ensures Handled(cfg, c, fs, PutRequest(name, |body|, tag), body + rest)
      == if cfg.renames(FilePath(cfg.root, c.user, name).value)
         then Outcome(c, Committed(fs, cfg.root, c.user, name, body, tag), rest, Line("OK"), true)
         else Fail(c, fs, rest, "store-failed")
  {
    hide Fields, FieldsN, ToDecimal, PutRequest, Committed, ParsedSize;
    PutRequestFields(name, |body|, tag);
    ParsePrinted(|body|, MAX_TRANSFER);
    assert (body + rest)[..|body|] == body && (body + rest)[|body|..] == rest;
  }

  /** A refusal before the body leaves the body in the queue, to be taken for
      further request lines. So a request is framed correctly exactly when it gets
      past the three checks that come first. */
  lemma {:induction false} BodyConsumedIff(cfg: Config, c: Conn, fs: Fs, name: string, body: string, tag: string, rest: string)
    requires name != "" && name[0] != ' ' && Word(tag) && 0 < |body| < U64
    ensures Handled(cfg, c, fs, PutRequest(name, |body|, tag), body + rest).rest == rest <==>
      c.loggedIn && |body| <= MAX_TRANSFER && FilePath(cfg.root, c.user, name).Some?
    ensures Handled(cfg, c, fs, PutRequest(name, |body|, tag), body + rest).rest in {rest, body + rest}
  {
    hide Fields, FieldsN, ToDecimal, Committed, ParsedSize, FilePath, Line;
    PutRequestSplit(name, |body|, tag);
    ParsePrinted(|body|, MAX_TRANSFER);
    assert (body + rest)[..|body|] == body && (body + rest)[|body|..] == rest;
    assert |body + rest| > |rest|;
  }

  lemma {:induction false} ServesStat(cfg: Config, c: Conn, fs: Fs, name: string, rest: string)
    requires c.loggedIn && IsValidUsername(c.user) && ValidName(name)
    ensures Handled(cfg, c, fs, "STAT" + " " + name, rest) == Outcome(c, fs, rest,
      match View(fs, cfg.root, c.user, name)
        case None => Line("NONE")
        case Some(item) => Line("META " + ToDecimal(|item.body|) + " " + WireTag(item.tag)), true)
  {
    hide Fields, FieldsN, ToDecimal;
    NameRequest("STAT", name);
  }

  lemma {:induction false} ServesGet(cfg: Config, c: Conn, fs: Fs, name: string, rest: string)
    requires c.loggedIn && IsValidUsername(c.user) && ValidName(name)
    ensures Handled(cfg, c, fs, "GETFILE" + " " + name, rest) == Outcome(c, fs, rest,
      match View(fs, cfg.root, c.user, name)
        case None => Line("NONE")
        case Some(item) => Line("DATA " + ToDecimal(|item.body|)) + item.body, true)
  {
    hide Fields, FieldsN, ToDecimal, TagOf;
    NameRequest("GETFILE", name);
  }

  lemma {:induction false} ServesDel(cfg: Config, c: Conn, fs: Fs, name: string, rest: string)
    requires c.loggedIn && IsValidUsername(c.user) && ValidName(name)
    ensures Handled(cfg, c, fs, "DELFILE" + " " + name, rest) == Outcome(c, Removed(fs, cfg.root, c.user, name), rest,
      Line(if View(fs, cfg.root, c.user, name).Some? then "OK" else "NONE"), true)
  {
    hide Fields, FieldsN, TagOf;
    NameRequest("DELFILE", name);
  }

  lemma {:induction false} ServesList(cfg: Config, c: Conn, fs: Fs, rest: string)
    requires c.loggedIn
    ensures Sendable("LIST") && Handled(cfg, c, fs, "LIST", rest) == List(cfg, c, fs, rest)
  {
    ListWord();
    hide Fields, List, Login, Auth, Stat, PutFile, GetFile, DelFile, PutChunk, GetChunk, DelChunk, Sendable;
  }

  lemma {:induction false} ListWord()
    ensures Sendable("LIST") && Fields("LIST") == ["LIST"]
  {
    OneWord("LIST");
  }

  // ----- replies, as the client understands them -----

  datatype StatResult = BadStat | Absent | Known(size: nat, tag: string)
  datatype BodyResult = BadBody | NoBody | BodyOf(size: nat)

  function ParseStat(line: string): StatResult {
    var f := Fields(line);
    if f != [] && f[0] == "NONE" then Absent
    else if |f| != 3 || f[0] != "META" then BadStat
    else match ParsedSize(f[1], MAX_TRANSFER)
      case None => BadStat
      case Some(size) => Known(size, if f[2] == "-" then "" else f[2])
  }

  function ParseData(line: string): BodyResult {
    var f := Fields(line);
    if f != [] && f[0] == "NONE" then NoBody
    else if |f| != 2 || f[0] != "DATA" then BadBody
    else match ParsedSize(f[1], MAX_TRANSFER)
      case None => BadBody
      case Some(size) => BodyOf(size)
  }

  lemma {:induction false} StatReplies(size: nat, tag: string)
    requires size <= MAX_TRANSFER && TagText(tag)
    ensures Sendable("NONE") && ParseStat("NONE") == Absent
    ensures Sendable("META " + ToDecimal(size) + " " + tag)
    ensures ParseStat("META " + ToDecimal(size) + " " + tag) == Known(size, if tag == "-" then "" else tag)
  {
    hide Fields, ToDecimal, ParsedSize;
    OneWord("NONE");
    DecimalText(size);
    ParsePrinted(size, MAX_TRANSFER);
    ThreeFields("META", ToDecimal(size), tag);
    assert "META" + " " + ToDecimal(size) + " " + tag == "META " + ToDecimal(size) + " " + tag;
  }

  lemma {:induction false} DataReplies(size: nat)
    requires size <= MAX_TRANSFER
    ensures Sendable("NONE") && ParseData("NONE") == NoBody
    ensures Sendable("DATA " + ToDecimal(size)) && ParseData("DATA " + ToDecimal(size)) == BodyOf(size)
  {
    hide Fields, ToDecimal, ParsedSize;
    OneWord("NONE");
    DecimalText(size);
    ParsePrinted(size, MAX_TRANSFER);
    TwoFields("DATA", ToDecimal(size));
    assert "DATA" + " " + ToDecimal(size) == "DATA " + ToDecimal(size);
  }

  lemma {:induction false} ShortReplies()
    ensures Sendable("OK") && Fields("OK") == ["OK"] && Sendable("NONE") && Fields("NONE") == ["NONE"]
  {
    OneWord("OK");
    OneWord("NONE");
  }

  datatype Listed = Listed(size: nat, modified: int, name: string)

  /** One line of a listing; a line that does not parse is skipped. */
  function ParseListed(line: string): (r: Option<Listed>) {
    var f := FieldsN(line, 3);
    if |f| != 3 then None
    else match ParsedSize(f[0], MAX_TRANSFER)
      case None => None
      case Some(size) => Some(Listed(size, Strtoll(f[1]), f[2]))
  }

  lemma {:induction false} IntWord(i: int)
    requires INT64_MIN <= i <= INT64_MAX
    ensures Word(IntText(i)) && '\n' !in IntText(i) && '\r' !in IntText(i) && |IntText(i)| <= 21
  {
    hide ToDecimal;
    DecimalText(if i < 0 then -i else i);
  }

  /** A line of a listing is parsed as meant, spaces that begin the name aside; a name
      of spaces alone makes a line that is skipped. */
  lemma {:induction false} EntryRoundTrip(size: nat, modified: int, name: string)
    requires size <= MAX_TRANSFER && INT64_MIN <= modified <= INT64_MAX && IsSafeName(name)
    ensures var line := ToDecimal(size) + " " + IntText(modified) + " " + name;
      Sendable(line) && ParseListed(line) == if TrimLeft(name) == "" then None else Some(Listed(size, modified, TrimLeft(name)))
  {
    hide FieldsN, Fields, ToDecimal, IntText, ParsedSize, IsSafeName, Strtoll;
    StrtollPrinted(modified);
    SafeAlone(name);
    DecimalText(size);
    IntWord(modified);
    ParsePrinted(size, MAX_TRANSFER);
    WordThen(IntText(modified), name);
    WordThen(ToDecimal(size), IntText(modified) + " " + name);
    var line := ToDecimal(size) + " " + IntText(modified) + " " + name;
    assert line == ToDecimal(size) + " " + (IntText(modified) + " " + name);
    assert FieldsN(IntText(modified) + " " + name, 2) == [IntText(modified)] + FieldsN(name, 1);
    assert FieldsN(line, 3) == [ToDecimal(size)] + FieldsN(IntText(modified) + " " + name, 2);
  }

  // ----- chunks and credentials -----

  lemma {:induction false} ChunkText(id: string)
    requires IsSafeChunkId(id)
    ensures Token(id) && '\r' !in id && |id| == 64
  {
    assert forall i :: 0 <= i < |id| ==> HexChar(id[i]);
  }

  lemma {:induction false} ServesPutChunk(cfg: Config, c: Conn, fs: Fs, id: string, body: string, rest: string)
    requires c.trusted && IsSafeChunkId(id) && |body| <= MAX_TRANSFER
    ensures ChunkPath(cfg.root, id).Some?
    ensures var line := "PUTCHUNK" + " " + id + " " + ToDecimal(|body|);
      Sendable(line) && Handled(cfg, c, fs, line, body + rest)
        == if cfg.renames(ChunkPath(cfg.root, id).value) then Outcome(c, fs[ChunkPath(cfg.root, id).value := body], rest, Line("OK"), true)
           else Fail(c, fs, rest, "store-failed")
  {
    hide Fields, ToDecimal, ParsedSize, IsSafeChunkId;
    ChunkText(id);
    DecimalText(|body|);
    ParsePrinted(|body|, MAX_TRANSFER);
    ThreeFields("PUTCHUNK", id, ToDecimal(|body|));
    assert (body + rest)[..|body|] == body && (body + rest)[|body|..] == rest;
  }

  lemma {:induction false} ServesChunkById(cfg: Config, c: Conn, fs: Fs, id: string)
    requires c.trusted && IsSafeChunkId(id)
    ensures ChunkPath(cfg.root, id).Some? && Sendable("GETCHUNK" + " " + id) && Sendable("DELCHUNK" + " " + id)
    ensures var path := ChunkPath(cfg.root, id).value;
      Handled(cfg, c, fs, "GETCHUNK" + " " + id, "") == Outcome(c, fs, "",
        if path in fs then Line("DATA " + ToDecimal(|fs[path]|)) + fs[path] else Line("NONE"), true)
    ensures Handled(cfg, c, fs, "DELCHUNK" + " " + id, "") == Outcome(c, fs - {ChunkPath(cfg.root, id).value}, "", Line("OK"), true)
  {
    hide Fields, ToDecimal, IsSafeChunkId;
    ChunkText(id);
    TwoFields("GETCHUNK", id);
    TwoFields("DELCHUNK", id);
  }

  /** One line, of any length; what is in it is for the server to judge. */
  predicate Credential(s: string) {
    '\n' !in s
  }

  lemma {:induction false} ServesHello(cfg: Config, c: Conn, fs: Fs)
    ensures Sendable("HELLO pcs/4") && Sendable("OK pcs/4") && Fields("OK pcs/4") == ["OK", "pcs/4"]
    ensures Handled(cfg, c, fs, "HELLO pcs/4", "") == Outcome(c, fs, "", Line("OK pcs/4"), true)
  {
    hide Fields;
    TwoFields("HELLO", "pcs/4");
    assert "HELLO" + " " + "pcs/4" == "HELLO pcs/4";
    TwoFields("OK", "pcs/4");
    assert "OK" + " " + "pcs/4" == "OK pcs/4";
  }

  /** A connection that opens as the client does is served, and answered. */
  lemma {:induction false} GreetingServed(cfg: Config, c: Conn, fs: Fs, more: string)
    ensures var input := "HELLO pcs/4" + "\n" + more;
      !ForWeb(input) && Served(cfg, c, fs, input) == Continued(Line("OK pcs/4"), Served(cfg, c, fs, more))
  {
    hide Fields, Handled, LooksLikeHttp, TakeLine;
    LineRoundTrip("HELLO pcs/4", more);
    HelloFields();
    SessionEffects.CommandsAreServed("HELLO pcs/4");
    Greeted(cfg, c, fs, more);
  }

  lemma {:induction false} HelloFields()
    ensures Sendable("HELLO pcs/4") && Fields("HELLO pcs/4") == ["HELLO", "pcs/4"]
  {
    hide Fields;
    TwoFields("HELLO", "pcs/4");
    assert "HELLO" + " " + "pcs/4" == "HELLO pcs/4";
  }

  lemma {:induction false} Greeted(cfg: Config, c: Conn, fs: Fs, input: string)
    ensures Handled(cfg, c, fs, "HELLO pcs/4", input) == Outcome(c, fs, input, Line("OK pcs/4"), true)
  {
    hide Fields;
    HelloFields();
  }

  /** What is left on the wire of a command and its argument. */
  lemma {:induction false} RequestLeft(cmd: string, arg: string)
    requires '\n' !in cmd && '\r' !in cmd && '\n' !in arg
    ensures var line := cmd + " " + arg; '\n' !in line && NoReturns(line) == cmd + " " + NoReturns(arg)
  {
    NoReturnsJoin(cmd + " ", arg);
    NoReturnsJoin(cmd, " ");
  }

  /** What the server makes of a LOGIN line, as far as one can be read. */
  lemma {:induction false} ServesLogin(cfg: Config, c: Conn, fs: Fs, user: string, password: string)
    requires Credential(user) && Credential(password)
    ensures var line, g := "LOGIN" + " " + user + " " + password, NoReturns(user) + " " + NoReturns(password);
      '\n' !in line && NoReturns(line) == "LOGIN" + " " + g
      && Handled(cfg, c, fs, NoReturns(line), "") == Login(cfg, c, fs, ["LOGIN"] + Fields(g), "")
  {
    hide Fields, Login, NoReturns, Handled;
    var rest := user + " " + password;
    NoReturnsJoin(user, " " + password);
    RequestLeft("", password);
    assert user + (" " + password) == rest && "" + " " + password == " " + password;
    assert "" + " " + NoReturns(password) == " " + NoReturns(password);
    assert NoReturns(user) + (" " + NoReturns(password)) == NoReturns(user) + " " + NoReturns(password);
    RequestLeft("LOGIN", rest);
    assert "LOGIN" + " " + user + " " + password == "LOGIN" + " " + rest;
    HandlesLogin(cfg, c, fs, NoReturns(rest));
  }

  lemma {:induction false} HandlesLogin(cfg: Config, c: Conn, fs: Fs, g: string)
    ensures Handled(cfg, c, fs, "LOGIN" + " " + g, "") == Login(cfg, c, fs, ["LOGIN"] + Fields(g), "")
  {
    hide Fields, Login;
    WordThen("LOGIN", g);
  }

  /** Of credentials that are words, the server reads what was meant. */
  lemma {:induction false} WordsOfLogin(user: string, password: string)
    requires Word(user) && Word(password)
    ensures Fields(user + " " + password) == [user, password]
  {
    TwoFields(user, password);
  }

  lemma {:induction false} ServesAuth(cfg: Config, c: Conn, fs: Fs, token: string)
    requires Credential(token)
    ensures var line, g := "AUTH" + " " + token, NoReturns(token);
      '\n' !in line && NoReturns(line) == "AUTH" + " " + g
      && Handled(cfg, c, fs, NoReturns(line), "") == Auth(cfg, c, fs, ["AUTH"] + Fields(g), "")
  {
    hide Fields, Auth, NoReturns;
    RequestLeft("AUTH", token);
    WordThen("AUTH", NoReturns(token));
  }

  function LoginReply(cfg: Config, g: seq<string>): string {
    if |g| != 2 then "ERR malformed-login"
    else if !cfg.verify(g[0], g[1]) then "ERR bad-credentials"
    else if IsValidUsername(g[0]) then "OK" else "ERR account-storage"
  }

  function AuthReply(cfg: Config, g: seq<string>): string {
    if |g| != 1 then "ERR malformed-auth" else if g[0] == cfg.token then "OK" else "ERR bad-token"
  }

  lemma {:induction false} PutVerdict(cfg: Config, c: Conn, fs: Fs, name: string, body: string, tag: string) returns (reply: string)
    requires c.loggedIn && IsValidUsername(c.user) && ValidName(name) && TagText(tag) && |body| <= MAX_TRANSFER
    ensures FilePath(cfg.root, c.user, name).Some? && Sendable(PutRequest(name, |body|, tag))
    ensures var ok := cfg.renames(FilePath(cfg.root, c.user, name).value);
      Handled(cfg, c, fs, PutRequest(name, |body|, tag), body) ==
        Outcome(c, if ok then Committed(fs, cfg.root, c.user, name, body, tag) else fs, "", Line(reply), true)
      && Sendable(reply) && Fields(reply) != [] && (Fields(reply)[0] == "OK" <==> ok)
  {
    hide Handled, Committed, FilePath, Fields, FieldsN, ToDecimal, ValidName, Sendable, PutRequest;
    PutRequestFields(name, |body|, tag);
    ServesPut(cfg, c, fs, name, body, tag, "");
    assert body + "" == body && "ERR " + "store-failed" == "ERR store-failed";
    ShortReplies();
    Refusals();
    reply := if cfg.renames(FilePath(cfg.root, c.user, name).value) then "OK" else "ERR store-failed";
  }

  lemma {:induction false} PutChunkVerdict(cfg: Config, c: Conn, fs: Fs, id: string, body: string) returns (reply: string)
    requires c.trusted && IsSafeChunkId(id) && |body| <= MAX_TRANSFER
    ensures ChunkPath(cfg.root, id).Some?
    ensures var line, path := "PUTCHUNK" + " " + id + " " + ToDecimal(|body|), ChunkPath(cfg.root, id).value;
      var ok := cfg.renames(path);
      Sendable(line) && Handled(cfg, c, fs, line, body) == Outcome(c, if ok then fs[path := body] else fs, "", Line(reply), true)
      && Sendable(reply) && Fields(reply) != [] && (Fields(reply)[0] == "OK" <==> ok)
  {
    hide Handled, Fields, ToDecimal, IsSafeChunkId, Sendable, ChunkPath;
    ServesPutChunk(cfg, c, fs, id, body, "");
    assert body + "" == body && "ERR " + "store-failed" == "ERR store-failed";
    ShortReplies();
    Refusals();
    reply := if cfg.renames(ChunkPath(cfg.root, id).value) then "OK" else "ERR store-failed";
  }

  /** What the two credentials, read as words, lead to. */
  lemma {:induction false} LoginVerdict(cfg: Config, c: Conn, fs: Fs, g: seq<string>)
    ensures var o, reply := Login(cfg, c, fs, ["LOGIN"] + g, ""), LoginReply(cfg, g);
      o.fs == fs && o.rest == "" && o.out == Line(reply) && o.conn == (if reply == "OK" then c.(user := g[0], loggedIn := true) else c)
      && Sendable(reply) && Fields(reply) != [] && (Fields(reply)[0] == "OK" <==> reply == "OK")
  {
    hide Fields, Sendable, Login, LoginReply;
    LoginReplyHeard(cfg, g);
    LoginOutcome(cfg, c, fs, g);
  }

  lemma {:induction false} LoginReplyHeard(cfg: Config, g: seq<string>)
    ensures var reply := LoginReply(cfg, g); Sendable(reply) && Fields(reply) != [] && (Fields(reply)[0] == "OK" <==> reply == "OK")
  {
    hide Fields, Sendable, IsValidUsername;
    ShortReplies();
    Refusals();
  }

  lemma {:induction false} LoginOutcome(cfg: Config, c: Conn, fs: Fs, g: seq<string>)
    ensures var o, reply := Login(cfg, c, fs, ["LOGIN"] + g, ""), LoginReply(cfg, g);
      o.fs == fs && o.rest == "" && o.out == Line(reply) && o.conn == (if reply == "OK" then c.(user := g[0], loggedIn := true) else c)
  {
    hide IsValidUsername, Line;
    assert "ERR " + "malformed-login" == "ERR malformed-login" && "ERR " + "account-storage" == "ERR account-storage";
    if |g| == 2 {
      assert ["LOGIN"] + g == ["LOGIN", g[0], g[1]];
    }
  }

  lemma {:induction false} AuthVerdict(cfg: Config, c: Conn, fs: Fs, g: seq<string>)
    ensures var o, reply := Auth(cfg, c, fs, ["AUTH"] + g, ""), AuthReply(cfg, g);
      o.fs == fs && o.rest == "" && o.out == Line(reply) && o.conn == (if reply == "OK" then c.(trusted := true) else c)
      && Sendable(reply) && Fields(reply) != [] && (Fields(reply)[0] == "OK" <==> reply == "OK")
  {
    hide Fields, Sendable, Auth, AuthReply;
    AuthReplyHeard(cfg, g);
    AuthOutcome(cfg, c, fs, g);
  }

  lemma {:induction false} AuthReplyHeard(cfg: Config, g: seq<string>)
    ensures var reply := AuthReply(cfg, g); Sendable(reply) && Fields(reply) != [] && (Fields(reply)[0] == "OK" <==> reply == "OK")
  {
    hide Fields, Sendable;
    ShortReplies();
    Refusals();
  }

  lemma {:induction false} AuthOutcome(cfg: Config, c: Conn, fs: Fs, g: seq<string>)
    ensures var o, reply := Auth(cfg, c, fs, ["AUTH"] + g, ""), AuthReply(cfg, g);
      o.fs == fs && o.rest == "" && o.out == Line(reply) && o.conn == (if reply == "OK" then c.(trusted := true) else c)
  {
    hide Line;
    assert "ERR " + "malformed-auth" == "ERR malformed-auth";
    assert |["AUTH"] + g| == 2 <==> |g| == 1;
  }

  lemma {:induction false} Refusals()
    ensures Sendable("ERR bad-credentials") && Sendable("ERR account-storage") && Sendable("ERR bad-token")
    ensures Fields("ERR bad-credentials") == ["ERR", "bad-credentials"]
    ensures Fields("ERR account-storage") == ["ERR", "account-storage"] && Fields("ERR bad-token") == ["ERR", "bad-token"]
    ensures Sendable("ERR store-failed") && Fields("ERR store-failed") == ["ERR", "store-failed"]
    ensures Sendable("ERR malformed-login") && Fields("ERR malformed-login") == ["ERR", "malformed-login"]
    ensures Sendable("ERR malformed-auth") && Fields("ERR malformed-auth") == ["ERR", "malformed-auth"]
  {
    hide Fields, Word, Sendable;
    ReasonWords();
    Refusal("bad-credentials");
    Refusal("account-storage");
    Refusal("bad-token");
    Refusal("store-failed");
    Refusal("malformed-login");
    Refusal("malformed-auth");
    assert "ERR" + " " + "store-failed" == "ERR store-failed";
    assert "ERR" + " " + "malformed-login" == "ERR malformed-login";
    assert "ERR" + " " + "malformed-auth" == "ERR malformed-auth";
    assert "ERR" + " " + "bad-credentials" == "ERR bad-credentials";
    assert "ERR" + " " + "account-storage" == "ERR account-storage";
    assert "ERR" + " " + "bad-token" == "ERR bad-token";
  }

  predicate Reason(s: string) {
    Word(s) && '\n' !in s && '\r' !in s && |s| <= 100
  }

  lemma {:induction false} ReasonWords()
    ensures Reason("bad-credentials") && Reason("account-storage") && Reason("bad-token")
    ensures Reason("store-failed") && Reason("malformed-login") && Reason("malformed-auth")
  {
    hide Reason;
    LoginReasons();
    OtherReasons();
    MalformedReasons();
  }

  lemma {:induction false} LoginReasons()
    ensures Reason("bad-credentials") && Reason("account-storage")
  {
  }

  lemma {:induction false} OtherReasons()
    ensures Reason("bad-token") && Reason("store-failed")
  {
  }

  lemma {:induction false} MalformedReasons()
    ensures Reason("malformed-login") && Reason("malformed-auth")
  {
  }

  lemma {:induction false} Refusal(reason: string)
    requires Reason(reason)
    ensures Sendable("ERR" + " " + reason) && Fields("ERR" + " " + reason) == ["ERR", reason]
  {
    hide Fields;
    TwoFields("ERR", reason);
  }

  // ----- listings -----

  predicate ClockInRange(cfg: Config, path: string) {
    INT64_MIN <= cfg.modified(path) <= INT64_MAX
  }

  /** Everything the account stores can be listed on the wire. */
  ghost predicate ListClean(cfg: Config, fs: Fs, user: string) {
    |NamesOf(fs, cfg.root, user)| <= 1000000
    && (forall name :: name in NamesOf(fs, cfg.root, user) ==>
      FilePath(cfg.root, user, name).Some?
      && FilePath(cfg.root, user, name).value in fs && |fs[FilePath(cfg.root, user, name).value]| <= MAX_TRANSFER
      && ClockInRange(cfg, FilePath(cfg.root, user, name).value))
  }

  /** What listing these stored files should report. */
  ghost function Report(cfg: Config, fs: Fs, user: string, names: seq<string>): seq<Listed>
    requires ListClean(cfg, fs, user) && forall n :: n in names ==> n in NamesOf(fs, cfg.root, user)
  {
    if names == [] then []
    else
      var path := FilePath(cfg.root, user, names[0]).value;
      (if TrimLeft(names[0]) == "" then [] else [Listed(|fs[path]|, cfg.modified(path), TrimLeft(names[0]))])
      + Report(cfg, fs, user, names[1..])
  }

  lemma {:induction false} EntryParses(cfg: Config, fs: Fs, user: string, names: seq<string>)
    requires ListClean(cfg, fs, user) && names != [] && forall n :: n in names ==> n in NamesOf(fs, cfg.root, user)
    ensures Sendable(Entry(cfg, fs, user, names[0]))
    ensures var entry := ParseListed(Entry(cfg, fs, user, names[0]));
      Report(cfg, fs, user, names) == (if entry.Some? then [entry.value] else []) + Report(cfg, fs, user, names[1..])
    ensures Entries(cfg, fs, user, names) == Line(Entry(cfg, fs, user, names[0])) + Entries(cfg, fs, user, names[1..])
  {
    hide FieldsN, ToDecimal, IntText, ParseListed, NamesOf, TrimLeft;
    var name := names[0];
    assert name in NamesOf(fs, cfg.root, user);
    var path := FilePath(cfg.root, user, name).value;
    EntryRoundTrip(|fs[path]|, cfg.modified(path), name);
  }

  lemma {:induction false} CountReply(n: nat)
    requires n <= 1000000
    ensures Sendable("COUNT " + ToDecimal(n)) && Fields("COUNT " + ToDecimal(n)) == ["COUNT", ToDecimal(n)]
    ensures ParsedSize(ToDecimal(n), 1000000) == Some(n)
  {
    hide Fields, ToDecimal, ParsedSize;
    DecimalText(n);
    ParsePrinted(n, 1000000);
    TwoFields("COUNT", ToDecimal(n));
    assert "COUNT" + " " + ToDecimal(n) == "COUNT " + ToDecimal(n);
  }

  // ----- the client object -----

  class Remote {
    const out: Pipe
    const inp: Pipe
    const server: Session

    constructor (server: Session)
      ensures this.server == server && out == server.inbound && inp == server.outbound
    {
      this.server := server;
      out := server.inbound;
      inp := server.outbound;
    }

    /** The two queues lead to this server and are empty. */
    ghost predicate Quiet()
      reads this, out, inp
    {
      out == server.inbound && inp == server.outbound && out != inp && out.data == "" && inp.data == ""
    }

    ghost predicate LoggedIn()
      reads server
    {
      server.loggedIn && IsValidUsername(server.user)
    }

    /** Sends a request with its body and lets the server take its turn. */
    method Ask(line: string, body: string, hex: string) returns (go: bool)
      requires Quiet() && Sendable(line) && TempPath(server.cfg.root, hex) !in server.disk.fs
      modifies out, inp, server, server.disk
      ensures out == server.inbound && inp == server.outbound && out != inp
      ensures var o := Handled(server.cfg, old(server.State()), old(server.disk.fs), line, body);
        go == o.go && server.State() == o.conn && server.disk.fs == o.fs && out.data == o.rest && inp.data == o.out
    {
      hide Handled;
      out.SendLine(line);
      SendFileBody(body);
      LineRoundTrip(line, body);
      assert out.data == line + "\n" + body;
      go := server.Turn(hex);
    }

    /** Sends a body one buffer at a time. */
    method SendFileBody(body: string)
      modifies out
      ensures out.data == old(out.data) + body
    {
      var sent := 0;
      while sent < |body|
        invariant 0 <= sent <= |body| && out.data == old(out.data) + body[..sent]
      {
        var want := if |body| - sent < IO_BUFFER then |body| - sent else IO_BUFFER;
        out.Send(body[sent..sent + want]);
        assert body[..sent] + body[sent..sent + want] == body[..sent + want];
        sent := sent + want;
      }
      assert body[..sent] == body;
    }

    /** Receives exactly `size` bytes one buffer at a time. */
    method ReadBody(size: nat) returns (ok: bool, body: string)
      modifies inp
      ensures ok <==> size <= |old(inp.data)|
      ensures ok ==> body == old(inp.data)[..size] && inp.data == old(inp.data)[size..]
    {
      body := "";
      while |body| < size
        invariant |body| <= size && |body| <= |old(inp.data)|
        invariant body == old(inp.data)[..|body|] && inp.data == old(inp.data)[|body|..]
        decreases size - |body|
      {
        var want := if size - |body| < IO_BUFFER then size - |body| else IO_BUFFER;
        var got, bytes := inp.Recv(want);
        if !got {
          return false, body;
        }
        body := body + bytes;
      }
      return true, body;
    }

    /** The next reply line. */
    method Hear(ghost line: string, ghost rest: string) returns (ok: bool, reply: string)
      requires Sendable(line) && inp.data == Line(line) + rest
      modifies inp
      ensures ok && reply == line && inp.data == rest
    {
      LineRoundTrip(line, rest);
      assert inp.data == line + "\n" + rest;
      ok, reply := inp.ReadLine();
    }

    /** Sends one line, of any length: the server handles what is left of it without
        carriage returns, or ends the connection when that is too long. */
    method AskAny(line: string, hex: string)
      requires Quiet() && '\n' !in line && TempPath(server.cfg.root, hex) !in server.disk.fs
      modifies out, inp, server, server.disk
      ensures out == server.inbound && inp == server.outbound && out != inp
      ensures if |NoReturns(line)| <= MAX_LINE
        then var o := Handled(server.cfg, old(server.State()), old(server.disk.fs), NoReturns(line), "");
          server.State() == o.conn && server.disk.fs == o.fs && out.data == o.rest && inp.data == o.out
        else server.State() == old(server.State()) && server.disk.fs == old(server.disk.fs) && inp.data == ""
    {
      hide Handled;
      out.SendLine(line);
      TakeFramed(line, "", "");
      assert out.data == line + "\n" + "" && "" + NoReturns(line) == NoReturns(line);
      var _ := server.Turn(hex);
    }

    /** Hears a one-line verdict: anything but OK is a refusal, and so is silence. */
    method Accepted(ghost expected: Option<string>) returns (ok: bool)
      requires expected.Some? ==> Sendable(expected.value)
      requires inp.data == match expected case Some(line) => Line(line) case None => ""
      modifies inp
      ensures inp.data == ""
      ensures ok <==> expected.Some? && Fields(expected.value) != [] && Fields(expected.value)[0] == "OK"
    {
      hide Sendable, Fields;
      if expected.Some? {
        LineRoundTrip(expected.value, "");
        assert inp.data == expected.value + "\n" + "";
      }
      var heard, reply := inp.ReadLine();
      if !heard {
        return false;
      }
      var f := Split(reply);
      ok := f != [] && f[0] == "OK";
    }

    method PutFile(name: string, body: string, tag: string, hex: string) returns (ok: bool)
      requires Quiet() && LoggedIn() && TempPath(server.cfg.root, hex) !in server.disk.fs
      requires ValidName(name) && ValidTag(tag) && |body| <= MAX_TRANSFER
      modifies out, inp, server, server.disk
      ensures Quiet() && server.State() == old(server.State())
      ensures FilePath(server.cfg.root, server.user, name).Some?
      ensures ok == server.cfg.renames(FilePath(server.cfg.root, server.user, name).value)
      ensures server.disk.fs ==
        if ok then Committed(old(server.disk.fs), server.cfg.root, server.user, name, body, WireTag(tag)) else old(server.disk.fs)
    {
      hide Handled, Committed, FilePath, Fields, FieldsN, ToDecimal, ValidName, Sendable, PutRequest;
      ghost var verdict := PutVerdict(server.cfg, server.State(), server.disk.fs, name, body, WireTag(tag));
      var _ := Ask(PutRequest(name, |body|, WireTag(tag)), body, hex);
      ok := Accepted(Some(verdict));
    }

    method Stat(name: string, hex: string) returns (ok: bool, exists_: bool, size: nat, tag: string)
      requires Quiet() && LoggedIn() && TempPath(server.cfg.root, hex) !in server.disk.fs && ValidName(name)
      requires StatClean(View(server.disk.fs, server.cfg.root, server.user, name))
      modifies out, inp, server, server.disk
      ensures ok && Quiet() && server.State() == old(server.State()) && server.disk.fs == old(server.disk.fs)
      ensures match View(server.disk.fs, server.cfg.root, server.user, name)
        case None => !exists_
        case Some(item) => exists_ && size == |item.body| && tag == if item.tag == "-" then "" else item.tag
    {
      hide Handled, FilePath, Fields, FieldsN, ToDecimal, ValidName, View;
      NameRequest("STAT", name);
      ServesStat(server.cfg, server.State(), server.disk.fs, name, "");
      ghost var v := View(server.disk.fs, server.cfg.root, server.user, name);
      ghost var expected := match v case None => "NONE" case Some(item) => "META " + ToDecimal(|item.body|) + " " + WireTag(item.tag);
      DashIsTag();
      StatReplies(if v.Some? then |v.value.body| else 0, if v.Some? then WireTag(v.value.tag) else "-");
      var _ := Ask("STAT" + " " + name, "", hex);
      assert inp.data == Line(expected) + "";
      var heard, reply := Hear(expected, "");
      var result := ParseStat(reply);
      ok, exists_, size, tag := !result.BadStat?, result.Known?, 0, "";
      if result.Known? {
        size, tag := result.size, result.tag;
      }
    }

    method GetFile(name: string, hex: string) returns (ok: bool, found: bool, body: string)
      requires Quiet() && LoggedIn() && TempPath(server.cfg.root, hex) !in server.disk.fs && ValidName(name)
      requires SizeClean(View(server.disk.fs, server.cfg.root, server.user, name))
      modifies out, inp, server, server.disk
      ensures ok && Quiet() && server.State() == old(server.State()) && server.disk.fs == old(server.disk.fs)
      ensures match View(server.disk.fs, server.cfg.root, server.user, name)
        case None => !found
        case Some(item) => found && body == item.body
    {
      hide Handled, FilePath, Fields, FieldsN, ToDecimal, ValidName, View;
      NameRequest("GETFILE", name);
      ServesGet(server.cfg, server.State(), server.disk.fs, name, "");
      ghost var v := View(server.disk.fs, server.cfg.root, server.user, name);
      ghost var expected := match v case None => "NONE" case Some(item) => "DATA " + ToDecimal(|item.body|);
      ghost var tail := match v case None => "" case Some(item) => item.body;
      DataReplies(|tail|);
      var _ := Ask("GETFILE" + " " + name, "", hex);
      assert inp.data == Line(expected) + tail;
      var heard, reply := Hear(expected, tail);
      var result := ParseData(reply);
      match result
      case BadBody => return false, false, "";
      case NoBody => return true, false, "";
      case BodyOf(size) =>
        ok, body := ReadBody(size);
        assert tail[..|tail|] == tail;
        return ok, true, body;
    }

    method DelFile(name: string, hex: string) returns (ok: bool, found: bool)
      requires Quiet() && LoggedIn() && TempPath(server.cfg.root, hex) !in server.disk.fs && ValidName(name)
      modifies out, inp, server, server.disk
      ensures ok && Quiet() && server.State() == old(server.State())
      ensures found == View(old(server.disk.fs), server.cfg.root, server.user, name).Some?
      ensures server.disk.fs == Removed(old(server.disk.fs), server.cfg.root, server.user, name)
    {
      hide Handled, FilePath, Fields, FieldsN, ValidName, View, Removed;
      NameRequest("DELFILE", name);
      ServesDel(server.cfg, server.State(), server.disk.fs, name, "");
      ShortReplies();
      ghost var there := View(server.disk.fs, server.cfg.root, server.user, name).Some?;
      var _ := Ask("DELFILE" + " " + name, "", hex);
      assert inp.data == Line(if there then "OK" else "NONE") + "";
      var heard, reply := Hear(if there then "OK" else "NONE", "");
      var f := Split(reply);
      if f != [] && f[0] == "NONE" {
        return true, false;
      }
      if f == [] || f[0] != "OK" {
        return false, false;
      }
      return true, true;
    }

    method ListFiles(hex: string) returns (ok: bool, files: seq<Listed>)
      requires Quiet() && LoggedIn() && TempPath(server.cfg.root, hex) !in server.disk.fs
      requires ListClean(server.cfg, server.disk.fs, server.user)
      modifies out, inp, server, server.disk
      ensures ok && Quiet() && server.State() == old(server.State()) && server.disk.fs == old(server.disk.fs)
      ensures files == Report(server.cfg, server.disk.fs, server.user, Sorted(NamesOf(server.disk.fs, server.cfg.root, server.user)))
    {
      hide Handled, Fields, FieldsN, ToDecimal, NamesOf, Sorted, ListClean, Entries, Entry, Report, ParsedSize;
      ghost var cfg, fs, user := server.cfg, server.disk.fs, server.user;
      ghost var names := Sorted(NamesOf(fs, cfg.root, user));
      CountWithin(cfg, fs, user);
      ServesList(cfg, server.State(), fs, "");
      var _ := Ask("LIST", "", hex);
      CountReply(|names|);
      assert inp.data == Line("COUNT " + ToDecimal(|names|)) + Entries(cfg, fs, user, names);
      var heard, reply := Hear("COUNT " + ToDecimal(|names|), Entries(cfg, fs, user, names));
      var head := Split(reply);
      if |head| != 2 || head[0] != "COUNT" {
        return false, [];
      }
      var count := ParseSize(head[1], 1000000);
      if count == None {
        return false, [];
      }
      files := [];
      ghost var report := Report(cfg, fs, user, names);
      NothingListed(cfg, fs, user);
      assert names[0..] == names;
      for i := 0 to count.value
        invariant Rest(names, names[i..]) && inp.data == Entries(cfg, fs, user, names[i..])
        invariant report == files + Report(cfg, fs, user, names[i..])
        modifies inp
      {
        ghost var left := names[i..];
        EntryParses(cfg, fs, user, left);
        assert left[1..] == names[i + 1..];
        ok, reply := Hear(Entry(cfg, fs, user, left[0]), Entries(cfg, fs, user, left[1..]));
        var entry := ParseListed(reply);
        if entry.Some? {
          files := files + [entry.value];
        }
      }
      assert names[|names|..] == [];
      ok := true;
    }

    method PutChunk(id: string, body: string, hex: string) returns (ok: bool)
      requires Quiet() && server.trusted && TempPath(server.cfg.root, hex) !in server.disk.fs
      requires IsSafeChunkId(id) && |body| <= MAX_TRANSFER
      modifies out, inp, server, server.disk
      ensures Quiet() && server.State() == old(server.State()) && ChunkPath(server.cfg.root, id).Some?
      ensures ok == server.cfg.renames(ChunkPath(server.cfg.root, id).value)
      ensures server.disk.fs == if ok then old(server.disk.fs)[ChunkPath(server.cfg.root, id).value := body] else old(server.disk.fs)
    {
      hide Handled, Fields, ToDecimal, IsSafeChunkId, Sendable, ChunkPath;
      ghost var verdict := PutChunkVerdict(server.cfg, server.State(), server.disk.fs, id, body);
      var _ := Ask("PUTCHUNK" + " " + id + " " + ToDecimal(|body|), body, hex);
      ok := Accepted(Some(verdict));
    }

    method GetChunk(id: string, hex: string) returns (ok: bool, found: bool, body: string)
      requires Quiet() && server.trusted && TempPath(server.cfg.root, hex) !in server.disk.fs && IsSafeChunkId(id)
      requires ChunkPath(server.cfg.root, id).Some? && ChunkPath(server.cfg.root, id).value in server.disk.fs
        ==> |server.disk.fs[ChunkPath(server.cfg.root, id).value]| <= MAX_TRANSFER
      modifies out, inp, server, server.disk
      ensures ok && Quiet() && server.State() == old(server.State()) && server.disk.fs == old(server.disk.fs)
      ensures ChunkPath(server.cfg.root, id).Some?
      ensures var path := ChunkPath(server.cfg.root, id).value;
        found == (path in server.disk.fs) && (found ==> body == server.disk.fs[path])
    {
      hide Handled, Fields, ToDecimal, IsSafeChunkId;
      ServesChunkById(server.cfg, server.State(), server.disk.fs, id);
      ghost var path := ChunkPath(server.cfg.root, id).value;
      ghost var tail := if path in server.disk.fs then server.disk.fs[path] else "";
      ghost var expected := if path in server.disk.fs then "DATA " + ToDecimal(|tail|) else "NONE";
      DataReplies(|tail|);
      var _ := Ask("GETCHUNK" + " " + id, "", hex);
      assert inp.data == Line(expected) + tail;
      var heard, reply := Hear(expected, tail);
      var result := ParseData(reply);
      match result
      case BadBody => return false, false, "";
      case NoBody => return true, false, "";
      case BodyOf(size) =>
        ok, body := ReadBody(size);
        assert tail[..|tail|] == tail;
        return ok, true, body;
    }

    method DelChunk(id: string, hex: string) returns (ok: bool)
      requires Quiet() && server.trusted && TempPath(server.cfg.root, hex) !in server.disk.fs && IsSafeChunkId(id)
      modifies out, inp, server, server.disk
      ensures ok && Quiet() && server.State() == old(server.State()) && ChunkPath(server.cfg.root, id).Some?
      ensures server.disk.fs == old(server.disk.fs) - {ChunkPath(server.cfg.root, id).value}
    {
      hide Handled, Fields, IsSafeChunkId;
      ServesChunkById(server.cfg, server.State(), server.disk.fs, id);
      var _ := Ask("DELCHUNK" + " " + id, "", hex);
      ShortReplies();
      ok := Accepted(Some("OK"));
    }

    /** The handshake, then a login: accepted exactly when the line is not too long and
        the two credentials, without carriage returns, read as two words that the server
        verifies. */
    method ConnectFiles(user: string, password: string, hex: string) returns (ok: bool)
      requires Quiet() && TempPath(server.cfg.root, hex) !in server.disk.fs && Credential(user) && Credential(password)
      modifies out, inp, server, server.disk
      ensures server.disk.fs == old(server.disk.fs)
      ensures var g := NoReturns(user) + " " + NoReturns(password);
        var f := Fields(g);
        ok <==> user != "" && |"LOGIN" + " " + g| <= MAX_LINE && |f| == 2 && server.cfg.verify(f[0], f[1]) && IsValidUsername(f[0])
      ensures ok ==> Quiet() && LoggedIn() && server.user == Fields(NoReturns(user) + " " + NoReturns(password))[0]
      ensures ok ==> server.trusted == old(server.trusted)
    {
      hide Handled, Fields, Sendable, Login, IsValidUsername, Credential, NoReturns;
      ok := Handshake(hex);
      if user == "" {
        return false;
      }
      ghost var g := NoReturns(user) + " " + NoReturns(password);
      ServesLogin(server.cfg, server.State(), server.disk.fs, user, password);
      LoginVerdict(server.cfg, server.State(), server.disk.fs, Fields(g));
      AskAny("LOGIN" + " " + user + " " + password, hex);
      ok := Accepted(if |"LOGIN" + " " + g| <= MAX_LINE then Some(LoginReply(server.cfg, Fields(g))) else None);
    }

    method ConnectChunks(token: string, hex: string) returns (ok: bool)
      requires Quiet() && TempPath(server.cfg.root, hex) !in server.disk.fs && Credential(token)
      modifies out, inp, server, server.disk
      ensures server.disk.fs == old(server.disk.fs)
      ensures ok <==> token != "" && |"AUTH" + " " + NoReturns(token)| <= MAX_LINE && Fields(NoReturns(token)) == [server.cfg.token]
      ensures ok ==> Quiet() && server.State() == old(server.State()).(trusted := true)
    {
      hide Handled, Fields, Sendable, Auth, Credential, NoReturns;
      ok := Handshake(hex);
      if token == "" {
        return false;
      }
      ghost var g := NoReturns(token);
      ServesAuth(server.cfg, server.State(), server.disk.fs, token);
      AuthVerdict(server.cfg, server.State(), server.disk.fs, Fields(g));
      AskAny("AUTH" + " " + token, hex);
      ok := Accepted(if |"AUTH" + " " + g| <= MAX_LINE then Some(AuthReply(server.cfg, Fields(g))) else None);
    }

    /** A whole connection: everything the client sends is under way before the server
        runs, and the server serves it to its end, starting with the reply that the
        handshake waits for. */
    method Greet(more: string, hex: string) returns (web: bool, ok: bool)
      requires Quiet() && TempPath(server.cfg.root, hex) !in server.disk.fs
      modifies out, inp, server, server.disk
      ensures !web && ok
      ensures (server.disk.fs, inp.data) == Served(server.cfg, old(server.State()), old(server.disk.fs), more)
    {
      hide Handled, ForWeb, Served;
      ghost var c, fs := server.State(), server.disk.fs;
      GreetingServed(server.cfg, c, fs, more);
      ServesHello(server.cfg, c, fs);
      out.SendLine("HELLO pcs/4");
      out.Send(more);
      assert out.data == "HELLO pcs/4" + "\n" + more;
      web := server.Run(hex);
      var heard, reply := Hear("OK pcs/4", Served(server.cfg, c, fs, more).1);
      var hello := Split(reply);
      ok := heard && |hello| == 2 && hello[0] == "OK" && hello[1] == "pcs/4";
    }

    method Handshake(hex: string) returns (ok: bool)
      requires Quiet() && TempPath(server.cfg.root, hex) !in server.disk.fs
      modifies out, inp, server, server.disk
      ensures ok && Quiet() && server.State() == old(server.State()) && server.disk.fs == old(server.disk.fs)
    {
      hide Handled, Fields;
      ServesHello(server.cfg, server.State(), server.disk.fs);
      var _ := Ask("HELLO pcs/4", "", hex);
      assert inp.data == Line("OK pcs/4") + "";
      var heard, reply := Hear("OK pcs/4", "");
      var hello := Split(reply);
      ok := heard && |hello| == 2 && hello[0] == "OK" && hello[1] == "pcs/4";
    }
  }

  ghost predicate Rest(names: seq<string>, left: seq<string>) {
    forall n :: n in left ==> n in names
  }

  lemma {:induction false} CountWithin(cfg: Config, fs: Fs, user: string)
    requires ListClean(cfg, fs, user)
    ensures |Sorted(NamesOf(fs, cfg.root, user))| <= 1000000
    ensures forall n :: n in Sorted(NamesOf(fs, cfg.root, user)) <==> n in NamesOf(fs, cfg.root, user)
  {
  }

  lemma {:induction false} NothingListed(cfg: Config, fs: Fs, user: string)
    requires ListClean(cfg, fs, user)
    ensures Entries(cfg, fs, user, []) == "" && Report(cfg, fs, user, []) == []
  {
  }

  lemma {:induction false} DashIsTag()
    ensures TagText("-")
  {
  }

  /** What a reply can announce: a size within the transfer limit. */
  predicate SizeClean(v: Option<Item>) {
    v.Some? ==> |v.value.body| <= MAX_TRANSFER
  }

  /** What STAT can report without a mangled line: such a size, and a tag of one word
      or none. */
  predicate StatClean(v: Option<Item>) {
    SizeClean(v) && (v.Some? ==> v.value.tag == "" || TagText(v.value.tag))
  }
}

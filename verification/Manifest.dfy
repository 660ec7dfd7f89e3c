/** The text record of a file waiting to reach its server. */
module Manifests {
  import opened Wrappers
  import opened Protocol
  import opened SafeName
  import opened Recover

  datatype Manifest = Manifest(server: string, name: string, streamSize: nat, shardSize: nat, dedupTag: string,
                               dataShards: int, parityShards: int, shards: seq<ShardRef>)

  const EMPTY: Manifest := Manifest("", "", 0, 0, "", 0, 0, [])

  const MAX_SIZE: nat := 0x7FFF_FFFF_FFFF_FFFF

  datatype Error = EmptyFile | NotAManifest | BadVersion | BadStreamSize | BadShardSize | BadLayout
    | BadShardIndex | BadChunkId | NoName | NoServer

  datatype Result<+T> = Ok(value: T) | Err(error: Error)

  // ----- lines of text -----

  /** How far the first line of a text reaches. */
  function LineLen(text: string): (n: nat)
    ensures n <= |text| && (n < |text| ==> text[n] == '\n')
    ensures forall i :: 0 <= i < n ==> text[i] != '\n'
  {
    if text == "" || text[0] == '\n' then 0 else 1 + LineLen(text[1..])
  }

  /** The lines `getline` delivers: a last line need not be terminated. */
  function Lines(text: string): (ls: seq<string>)
    decreases |text|
  {
    if text == "" then []
    else
      var n := LineLen(text);
      [text[..n]] + (if n < |text| then Lines(text[n + 1..]) else [])
  }

  function Unlines(ls: seq<string>): string {
    if ls == [] then "" else ls[0] + "\n" + Unlines(ls[1..])
  }

  lemma {:induction false} LinesUnlines(ls: seq<string>)
    requires forall i :: 0 <= i < |ls| ==> '\n' !in ls[i]
    ensures Lines(Unlines(ls)) == ls
  {
    if ls != [] {
      var l, rest := ls[0], Unlines(ls[1..]);
      var text := l + "\n" + rest;
      assert text[|l|] == '\n' && forall i :: 0 <= i < |l| ==> text[i] == l[i] && l[i] in l;
      assert LineLen(text) == |l|;
      assert text[..|l|] == l && text[|l| + 1..] == rest;
      LinesUnlines(ls[1..]);
    }
  }

  lemma {:induction false} UnlinesAppend(ls: seq<string>, l: string)
    ensures Unlines(ls + [l]) == Unlines(ls) + l + "\n"
  {
    if ls != [] {
      UnlinesAppend(ls[1..], l);
      assert (ls + [l])[1..] == ls[1..] + [l];
    } else {
      assert ([l])[1..] == [];
    }
  }

  // ----- writing -----

  function IntText(i: int): string {
    if i < 0 then "-" + ToDecimal(-i) else ToDecimal(i)
  }

  function ShardLine(s: ShardRef): string {
    "shard " + IntText(s.index) + " " + s.chunkId + " " + s.peer
  }

  function ShardLines(shards: seq<ShardRef>): (ls: seq<string>)
    ensures |ls| == |shards|
  {
    seq(|shards|, i requires 0 <= i < |shards| => ShardLine(shards[i]))
  }

  function FieldLines(m: Manifest): seq<string> {
    ["server " + m.server, "name " + m.name, "stream-size " + ToDecimal(m.streamSize), "shard-size " + ToDecimal(m.shardSize),
     "dedup-tag " + m.dedupTag, "layout " + IntText(m.dataShards) + " " + IntText(m.parityShards)]
  }

  function ManifestLines(m: Manifest): seq<string> {
    ["pcs-manifest 2"] + FieldLines(m) + ShardLines(m.shards)
  }

  method PutLine(text: string, ghost written: seq<string>, line: string) returns (r: string, ghost ls: seq<string>)
    requires text == Unlines(written)
    ensures ls == written + [line] && r == Unlines(ls)
  {
    UnlinesAppend(written, line);
    r, ls := text + line + "\n", written + [line];
  }

  lemma {:induction false} NoLine()
    ensures Unlines([]) == ""
  {
  }

  method Write(m: Manifest) returns (text: string)
    ensures text == Unlines(ManifestLines(m))
  {
    hide Unlines, IntText, ToDecimal;
    text := "";
    ghost var ls: seq<string> := [];
    assert text == Unlines(ls) by { NoLine(); }
    text, ls := PutLine(text, ls, "pcs-manifest 2");
    text, ls := PutLine(text, ls, "server " + m.server);
    text, ls := PutLine(text, ls, "name " + m.name);
    text, ls := PutLine(text, ls, "stream-size " + ToDecimal(m.streamSize));
    text, ls := PutLine(text, ls, "shard-size " + ToDecimal(m.shardSize));
    text, ls := PutLine(text, ls, "dedup-tag " + m.dedupTag);
    text, ls := PutLine(text, ls, "layout " + IntText(m.dataShards) + " " + IntText(m.parityShards));
    ghost var head := ["pcs-manifest 2"] + FieldLines(m);
    assert ls == head;
    for i := 0 to |m.shards|
      invariant ls == head + ShardLines(m.shards[..i]) && text == Unlines(ls)
    {
      var s := m.shards[i];
      text, ls := PutLine(text, ls, "shard " + IntText(s.index) + " " + s.chunkId + " " + s.peer);
      assert ShardLines(m.shards[..i + 1]) == ShardLines(m.shards[..i]) + [ShardLine(s)];
    }
    assert m.shards[..|m.shards|] == m.shards;
  }

  // ----- reading -----

  function ParsedInt(text: string, low: int, high: nat): (r: Option<int>) {
    var v := ParsedSize(text, high);
    if v.Some? && v.value >= low then Some(v.value) else None
  }

  /** The effect of one line on the record read so far. */
  function ReadLine(m: Manifest, line: string): (r: Result<Manifest>) {
    var f := Fields(line);
    if f == [] then Ok(m)
    else if f[0] == "server" && |f| == 2 then Ok(m.(server := f[1]))
    else if f[0] == "name" then
      var pair := FieldsN(line, 2);
      Ok(if |pair| == 2 then m.(name := pair[1]) else m)
    else if f[0] == "stream-size" && |f| == 2 then
      match ParsedSize(f[1], MAX_SIZE) case None => Err(BadStreamSize) case Some(v) => Ok(m.(streamSize := v))
    else if f[0] == "shard-size" && |f| == 2 then
      match ParsedSize(f[1], MAX_SIZE) case None => Err(BadShardSize) case Some(v) => Ok(m.(shardSize := v))
    else if f[0] == "dedup-tag" && |f| == 2 then Ok(m.(dedupTag := f[1]))
    else if f[0] == "layout" && |f| == 3 then
      var data, parity := ParsedInt(f[1], 1, 16), ParsedInt(f[2], 0, 16);
      if data.None? || parity.None? then Err(BadLayout)
      else Ok(m.(dataShards := data.value, parityShards := parity.value))
    else if f[0] == "shard" && |f| == 4 then
      var index := ParsedInt(f[1], 0, 3);
      if index.None? then Err(BadShardIndex)
      else if !IsSafeChunkId(f[2]) then Err(BadChunkId)
      else Ok(m.(shards := m.shards + [ShardRef(index.value, f[2], f[3])]))
    else Ok(m)
  }

  function ReadLines(m: Manifest, ls: seq<string>): (r: Result<Manifest>)
    decreases |ls|
  {
    if ls == [] then Ok(m)
    else match ReadLine(m, ls[0])
      case Err(e) => Err(e)
      case Ok(next) => ReadLines(next, ls[1..])
  }

  function Accept(m: Manifest): Result<Manifest> {
    if m.name == "" || !IsSafeName(m.name) then Err(NoName)
    else if m.server == "" then Err(NoServer)
    else Ok(m)
  }

  function Parsed(text: string): (r: Result<Manifest>) {
    var ls := Lines(text);
    if ls == [] then Err(EmptyFile)
    else
      var head := Fields(ls[0]);
      if |head| != 2 || head[0] != "pcs-manifest" then Err(NotAManifest)
      else if head[1] != "2" then Err(BadVersion)
      else match ReadLines(EMPTY, ls[1..])
        case Err(e) => Err(e)
        case Ok(m) => Accept(m)
  }

  /** The first two-field `server` line after the heading. */
  function PeekLines(ls: seq<string>): (r: Option<string>) {
    if ls == [] then None
    else
      var f := Fields(ls[0]);
      if |f| == 2 && f[0] == "server" then Some(f[1]) else PeekLines(ls[1..])
  }

  function Peeked(text: string): (r: Option<string>) {
    var ls := Lines(text);
    if ls == [] then None else PeekLines(ls[1..])
  }

  /** `getline`: the next line and where the one after it begins. */
  method GetLine(text: string, pos: nat) returns (ok: bool, line: string, next: nat)
    requires pos <= |text|
    ensures pos <= next <= |text| && (ok ==> next > pos)
    ensures if ok then Lines(text[pos..]) == [line] + Lines(text[next..]) else Lines(text[pos..]) == []
  {
    hide Lines;
    if pos == |text| {
      NoLines(text);
      return false, "", pos;
    }
    next := pos;
    NoLines(text);
    while next < |text| && text[next] != '\n'
      invariant pos <= next <= |text|
      invariant LineLen(text[pos..]) == next - pos + LineLen(text[next..])
    {
      assert text[next..][1..] == text[next + 1..];
      next := next + 1;
    }
    line := text[pos..next];
    LineAt(text, pos, next);
    if next < |text| {
      next := next + 1;
    }
    return true, line, next;
  }

  lemma {:induction false} NoLines(text: string)
    ensures Lines(text[|text|..]) == []
  {
  }

  lemma {:induction false} FirstLine(text: string)
    requires text != ""
    ensures var n := LineLen(text); Lines(text) == [text[..n]] + (if n < |text| then Lines(text[n + 1..]) else [])
  {
  }

  lemma {:induction false} LineAt(text: string, pos: nat, end: nat)
    requires pos <= end <= |text| && pos < |text| && LineLen(text[pos..]) == end - pos
    ensures Lines(text[pos..]) == [text[pos..end]] + (if end < |text| then Lines(text[end + 1..]) else [])
  {
    hide Lines, LineLen;
    var rest := text[pos..];
    FirstLine(rest);
    assert rest[..end - pos] == text[pos..end];
    if end < |text| {
      assert rest[end - pos + 1..] == text[end + 1..];
    }
  }

  method Read(text: string) returns (r: Result<Manifest>)
    ensures r == Parsed(text)
  {
    assert text[0..] == text;
    var ok, line, pos := GetLine(text, 0);
    if !ok {
      return Err(EmptyFile);
    }
    var head := Split(line);
    if |head| != 2 || head[0] != "pcs-manifest" {
      return Err(NotAManifest);
    }
    if head[1] != "2" {
      return Err(BadVersion);
    }
    ghost var target := ReadLines(EMPTY, Lines(text[pos..]));
    var parsed := EMPTY;
    ok, line, pos := GetLine(text, pos);
    while ok
      invariant pos <= |text|
      invariant target == if ok then ReadLines(parsed, [line] + Lines(text[pos..])) else Ok(parsed)
      decreases |text| - pos, ok
    {
      var step := Step(parsed, line);
      assert ([line] + Lines(text[pos..]))[1..] == Lines(text[pos..]);
      if step.Err? {
        return step;
      }
      parsed := step.value;
      ok, line, pos := GetLine(text, pos);
    }
    return Accept(parsed);
  }

  method ParseInt(text: string, low: int, high: nat) returns (r: Option<int>)
    requires high < U64
    ensures r == ParsedInt(text, low, high)
  {
    var value := ParseSize(text, high);
    return if value.Some? && value.value >= low then Some(value.value) else None;
  }

  method Step(m: Manifest, line: string) returns (r: Result<Manifest>)
    ensures r == ReadLine(m, line)
  {
    var f := Split(line);
    if f == [] {
      return Ok(m);
    }
    if f[0] == "server" && |f| == 2 {
      return Ok(m.(server := f[1]));
    } else if f[0] == "name" {
      var pair := SplitN(line, 2);
      return Ok(if |pair| == 2 then m.(name := pair[1]) else m);
    } else if f[0] == "stream-size" && |f| == 2 {
      var size := ParseSize(f[1], MAX_SIZE);
      return if size.None? then Err(BadStreamSize) else Ok(m.(streamSize := size.value));
    } else if f[0] == "shard-size" && |f| == 2 {
      var size := ParseSize(f[1], MAX_SIZE);
      return if size.None? then Err(BadShardSize) else Ok(m.(shardSize := size.value));
    } else if f[0] == "dedup-tag" && |f| == 2 {
      return Ok(m.(dedupTag := f[1]));
    } else if f[0] == "layout" && |f| == 3 {
      var data := ParseInt(f[1], 1, 16);
      var parity := ParseInt(f[2], 0, 16);
      return if data.None? || parity.None? then Err(BadLayout)
        else Ok(m.(dataShards := data.value, parityShards := parity.value));
    } else if f[0] == "shard" && |f| == 4 {
      var index := ParseInt(f[1], 0, 3);
      return if index.None? then Err(BadShardIndex)
        else if !IsSafeChunkId(f[2]) then Err(BadChunkId)
        else Ok(m.(shards := m.shards + [ShardRef(index.value, f[2], f[3])]));
    }
    return Ok(m);
  }

  method Peek(text: string) returns (r: Option<string>)
    ensures r == Peeked(text)
  {
    assert text[0..] == text;
    var ok, line, pos := GetLine(text, 0);
    if !ok {
      return None;
    }
    ok, line, pos := GetLine(text, pos);
    while ok
      invariant pos <= |text|
      invariant Peeked(text) == if ok then PeekLines([line] + Lines(text[pos..])) else None
      decreases |text| - pos, ok
    {
      var f := Split(line);
      if |f| == 2 && f[0] == "server" {
        return Some(f[1]);
      }
      assert ([line] + Lines(text[pos..]))[1..] == Lines(text[pos..]);
      ok, line, pos := GetLine(text, pos);
    }
    return None;
  }

  // ----- reading inverts writing -----

  predicate Token(s: string) {
    Word(s) && '\n' !in s
  }

  predicate WellFormedShard(s: ShardRef) {
    0 <= s.index <= 3 && IsSafeChunkId(s.chunkId) && Token(s.peer)
  }

  /** Every field fits its line; without a layout line, both counts are zero. */
  predicate Recordable(m: Manifest) {
    Token(m.server) && IsSafeName(m.name) && m.streamSize <= MAX_SIZE && m.shardSize <= MAX_SIZE
    && (m.dedupTag == "" || Token(m.dedupTag)) && 0 <= m.dataShards <= 16 && 0 <= m.parityShards <= 16
    && forall i :: 0 <= i < |m.shards| ==> WellFormedShard(m.shards[i])
  }

  predicate WellFormed(m: Manifest) {
    Recordable(m) && m.dataShards >= 1
  }

  lemma {:induction false} TwoFields(key: string, value: string)
    requires Word(key) && Word(value)
    ensures Fields(key + " " + value) == [key, value]
  {
    hide Fields, FieldsN, Word;
    WordThen(key, value);
    OneWord(value);
  }

  lemma {:induction false} ThreeFields(key: string, a: string, b: string)
    requires Word(key) && Word(a) && Word(b)
    ensures Fields(key + " " + a + " " + b) == [key, a, b]
  {
    hide Fields, FieldsN, Word;
    TwoFields(a, b);
    WordThen(key, a + " " + b);
    assert key + " " + a + " " + b == key + " " + (a + " " + b);
  }

  lemma {:induction false} FourFields(key: string, a: string, b: string, c: string)
    requires Word(key) && Word(a) && Word(b) && Word(c)
    ensures Fields(key + " " + a + " " + b + " " + c) == [key, a, b, c]
  {
    hide Fields, FieldsN, Word;
    ThreeFields(a, b, c);
    WordThen(key, a + " " + b + " " + c);
    assert key + " " + a + " " + b + " " + c == key + " " + (a + " " + b + " " + c);
  }

  /** The name comes back verbatim unless its first byte is a space. */
  lemma {:induction false} NameFields(name: string)
    requires name != ""
    ensures Fields("name " + name) == ["name"] + Fields(name)
    ensures FieldsN("name " + name, 2) == ["name"] + (if TrimLeft(name) == "" then [] else [TrimLeft(name)])
    ensures TrimLeft(name) == name <==> name[0] != ' '
  {
    WordThen("name", name);
    assert "name" + " " + name == "name " + name;
  }

  lemma {:induction false} SmallInt(i: int, low: int, high: nat)
    requires 0 <= i && low <= i <= high < U64
    ensures ParsedInt(IntText(i), low, high) == Some(i) && Word(IntText(i))
  {
    ParsePrinted(i, high);
  }

  lemma {:induction false} ReadServer(m: Manifest, server: string)
    requires Token(server)
    ensures ReadLine(m, "server " + server) == Ok(m.(server := server))
  {
    TwoFields("server", server);
    assert "server" + " " + server == "server " + server;
  }

  lemma {:induction false} ReadName(m: Manifest, name: string)
    requires name != ""
    ensures ReadLine(m, "name " + name) == Ok(if TrimLeft(name) == "" then m else m.(name := TrimLeft(name)))
  {
    NameFields(name);
  }

  lemma {:induction false} ReadStreamSize(m: Manifest, size: nat)
    requires size <= MAX_SIZE
    ensures ReadLine(m, "stream-size " + ToDecimal(size)) == Ok(m.(streamSize := size))
  {
    ParsePrinted(size, MAX_SIZE);
    TwoFields("stream-size", ToDecimal(size));
    hide Fields, ParsedSize, ToDecimal;
    assert "stream-size" + " " + ToDecimal(size) == "stream-size " + ToDecimal(size);
  }

  lemma {:induction false} ReadShardSize(m: Manifest, size: nat)
    requires size <= MAX_SIZE
    ensures ReadLine(m, "shard-size " + ToDecimal(size)) == Ok(m.(shardSize := size))
  {
    ParsePrinted(size, MAX_SIZE);
    TwoFields("shard-size", ToDecimal(size));
    hide Fields, ParsedSize, ToDecimal;
    assert "shard-size" + " " + ToDecimal(size) == "shard-size " + ToDecimal(size);
  }

  /** An empty tag leaves a line that is ignored, and so stays empty. */
  lemma {:induction false} ReadTag(m: Manifest, tag: string)
    requires tag == "" || Token(tag)
    ensures ReadLine(m, "dedup-tag " + tag) == Ok(if tag == "" then m else m.(dedupTag := tag))
  {
    assert "dedup-tag" + " " + tag == "dedup-tag " + tag;
    if tag == "" {
      WordThen("dedup-tag", "");
      assert TrimLeft("") == "";
    } else {
      TwoFields("dedup-tag", tag);
    }
  }

  lemma {:induction false} ReadLayout(m: Manifest, data: int, parity: int)
    requires 1 <= data <= 16 && 0 <= parity <= 16
    ensures ReadLine(m, "layout " + IntText(data) + " " + IntText(parity)) == Ok(m.(dataShards := data, parityShards := parity))
  {
    hide Fields, FieldsN, IntText, ParsedSize;
    SmallInt(data, 1, 16);
    SmallInt(parity, 0, 16);
    ThreeFields("layout", IntText(data), IntText(parity));
    assert "layout" + " " + IntText(data) == "layout " + IntText(data);
  }

  lemma {:induction false} ReadShard(m: Manifest, s: ShardRef)
    requires WellFormedShard(s)
    ensures ReadLine(m, ShardLine(s)) == Ok(m.(shards := m.shards + [s]))
  {
    SmallInt(s.index, 0, 3);
    FourFields("shard", IntText(s.index), s.chunkId, s.peer);
    assert "shard" + " " + IntText(s.index) == "shard " + IntText(s.index);
  }

  lemma {:induction false} ReadShards(m: Manifest, shards: seq<ShardRef>)
    requires forall i :: 0 <= i < |shards| ==> WellFormedShard(shards[i])
    ensures ReadLines(m, ShardLines(shards)) == Ok(m.(shards := m.shards + shards))
    decreases |shards|
  {
    hide ReadLine, ShardLine;
    if shards == [] {
      assert m.shards + shards == m.shards;
    } else {
      ReadShard(m, shards[0]);
      var next := m.(shards := m.shards + [shards[0]]);
      ReadShards(next, shards[1..]);
      assert ShardLines(shards)[1..] == ShardLines(shards[1..]);
      assert m.shards + [shards[0]] + shards[1..] == m.shards + shards;
    }
  }

  /** What the field lines before the layout leave behind. */
  lemma {:induction false} ReadFiveFields(m: Manifest, rest: seq<string>)
    requires Recordable(m)
    ensures ReadLines(EMPTY, FieldLines(m)[..5] + rest)
      == ReadLines(m.(name := TrimLeft(m.name), dataShards := 0, parityShards := 0, shards := []), rest)
  {
    hide ReadLine, ReadLines, Fields, FieldsN, ToDecimal, IntText;
    var f := FieldLines(m);
    var m1 := EMPTY.(server := m.server);
    var m2 := m1.(name := TrimLeft(m.name));
    var m3 := m2.(streamSize := m.streamSize);
    var m4 := m3.(shardSize := m.shardSize);
    var m5 := m4.(dedupTag := m.dedupTag);
    ReadServer(EMPTY, m.server);
    ReadName(m1, m.name);
    ReadStreamSize(m2, m.streamSize);
    ReadShardSize(m3, m.shardSize);
    ReadTag(m4, m.dedupTag);
    var t4 := [f[4]] + rest;
    var t3 := [f[3]] + t4;
    var t2 := [f[2]] + t3;
    var t1 := [f[1]] + t2;
    assert f[..5] + rest == [f[0]] + t1;
    ReadCons(EMPTY, f[0], t1, m1);
    ReadCons(m1, f[1], t2, m2);
    ReadCons(m2, f[2], t3, m3);
    ReadCons(m3, f[3], t4, m4);
    ReadCons(m4, f[4], rest, m5);
  }

  /** What all the field lines leave behind, name aside. */
  lemma {:induction false} ReadFieldLines(m: Manifest, rest: seq<string>)
    requires WellFormed(m)
    ensures ReadLines(EMPTY, FieldLines(m) + rest) == ReadLines(m.(name := TrimLeft(m.name), shards := []), rest)
  {
    hide ReadLine, ReadLines, Fields, FieldsN, ToDecimal, IntText;
    var f := FieldLines(m);
    var m5 := m.(name := TrimLeft(m.name), dataShards := 0, parityShards := 0, shards := []);
    ReadFiveFields(m, [f[5]] + rest);
    ReadLayout(m5, m.dataShards, m.parityShards);
    assert f + rest == f[..5] + ([f[5]] + rest);
    ReadCons(m5, f[5], rest, m5.(dataShards := m.dataShards, parityShards := m.parityShards));
  }

  /** A layout without data shards is refused. */
  lemma {:induction false} ReadNoLayout(m: Manifest)
    requires Recordable(m) && m.dataShards == 0
    ensures ReadLines(EMPTY, FieldLines(m) + ShardLines(m.shards)) == Err(BadLayout)
  {
    hide ReadLine, Fields, FieldsN, ToDecimal, IntText;
    var f, rest := FieldLines(m), ShardLines(m.shards);
    var m5 := m.(name := TrimLeft(m.name), dataShards := 0, parityShards := 0, shards := []);
    ReadFiveFields(m, [f[5]] + rest);
    assert f + rest == f[..5] + ([f[5]] + rest);
    ReadZeroLayout(m5, m.parityShards);
    assert ([f[5]] + rest)[0] == f[5];
  }

  lemma {:induction false} ReadZeroLayout(m: Manifest, parity: int)
    requires 0 <= parity <= 16
    ensures ReadLine(m, "layout " + IntText(0) + " " + IntText(parity)) == Err(BadLayout)
  {
    hide Fields, FieldsN, IntText, ParsedSize;
    SmallInt(0, 0, 16);
    SmallInt(parity, 0, 16);
    ThreeFields("layout", IntText(0), IntText(parity));
    assert "layout" + " " + IntText(0) == "layout " + IntText(0);
  }

  lemma {:induction false} ReadCons(m: Manifest, l: string, rest: seq<string>, next: Manifest)
    requires ReadLine(m, l) == Ok(next)
    ensures ReadLines(m, [l] + rest) == ReadLines(next, rest)
  {
    assert ([l] + rest)[1..] == rest;
  }

  predicate OneLine(s: string) {
    '\n' !in s
  }

  lemma {:induction false} NoNewlines(m: Manifest)
    requires Recordable(m)
    ensures forall i :: 0 <= i < |ManifestLines(m)| ==> OneLine(ManifestLines(m)[i])
  {
    hide FieldLines, ShardLine, OneLine;
    FieldsOneLine(m);
    forall i | 0 <= i < |m.shards| ensures OneLine(ShardLine(m.shards[i])) {
      ShardOneLine(m.shards[i]);
    }
    assert OneLine("pcs-manifest 2") by { HeadingOneLine(); }
  }

  lemma {:induction false} HeadingOneLine()
    ensures OneLine("pcs-manifest 2")
  {
  }

  lemma {:induction false} FieldsOneLine(m: Manifest)
    requires Recordable(m)
    ensures forall i :: 0 <= i < |FieldLines(m)| ==> OneLine(FieldLines(m)[i])
  {
    DecimalOneLine(m.streamSize);
    DecimalOneLine(m.shardSize);
    DecimalOneLine(m.dataShards);
    DecimalOneLine(m.parityShards);
    assert forall i :: 0 <= i < |m.name| ==> SafeChar(m.name[i]);
    hide ToDecimal;
    var f := FieldLines(m);
    assert OneLine(f[0]) && OneLine(f[1]) && OneLine(f[2]) && OneLine(f[3]) && OneLine(f[4]) && OneLine(f[5]);
  }

  lemma {:induction false} ShardOneLine(s: ShardRef)
    requires WellFormedShard(s)
    ensures OneLine(ShardLine(s))
  {
    DecimalOneLine(s.index);
    hide ToDecimal;
  }

  lemma {:induction false} DecimalOneLine(n: nat)
    ensures OneLine(ToDecimal(n))
  {
    assert Word(ToDecimal(n)) && Digits(ToDecimal(n));
    hide ToDecimal;
  }

  /** A written manifest splits back into its lines, under a good heading. */
  lemma {:induction false} WrittenLines(m: Manifest)
    requires Recordable(m)
    ensures Lines(Unlines(ManifestLines(m))) == ManifestLines(m)
    ensures Fields(ManifestLines(m)[0]) == ["pcs-manifest", "2"]
    ensures ManifestLines(m)[1..] == FieldLines(m) + ShardLines(m.shards)
  {
    hide FieldLines, ShardLines, Lines, Unlines, Fields;
    NoNewlines(m);
    LinesUnlines(ManifestLines(m));
    TwoFields("pcs-manifest", "2");
    assert "pcs-manifest" + " " + "2" == "pcs-manifest 2";
  }

  lemma {:induction false} ReadBody(m: Manifest)
    requires WellFormed(m)
    ensures ReadLines(EMPTY, FieldLines(m) + ShardLines(m.shards)) == Ok(m.(name := TrimLeft(m.name)))
  {
    var bare := m.(name := TrimLeft(m.name), shards := []);
    ReadFieldLines(m, ShardLines(m.shards));
    ReadShards(bare, m.shards);
    assert bare.shards + m.shards == m.shards;
  }

  /** Reading undoes writing for every well-formed manifest, however many shards
      it lists, exactly when the file name does not begin with a space. */
  lemma {:induction false} ReadUndoesWrite(m: Manifest)
    requires WellFormed(m)
    ensures Parsed(Unlines(ManifestLines(m))) == Ok(m) <==> m.name[0] != ' '
  {
    WrittenLines(m);
    ReadBody(m);
    NameFields(m.name);
  }

  // ----- whatever file is read -----

  lemma {:induction false} LinesPlain(text: string)
    ensures forall i :: 0 <= i < |Lines(text)| ==> '\n' !in Lines(text)[i]
    decreases |text|
  {
    if text != "" && LineLen(text) < |text| {
      LinesPlain(text[LineLen(text) + 1..]);
    }
  }

  lemma {:induction false} FieldsAreTokens(line: string)
    requires '\n' !in line
    ensures forall i :: 0 <= i < |Fields(line)| ==> Token(Fields(line)[i])
    decreases |line|
  {
    var t := TrimLeft(line);
    TrimIsSuffix(line);
    if t != "" {
      var n := WordLen(t);
      assert forall i :: 0 <= i < |t| ==> t[i] in line;
      assert Token(t[..n]);
      FieldsAreTokens(t[n..]);
    }
  }

  lemma {:induction false} TailToken(line: string)
    requires |FieldsN(line, 2)| == 2
    ensures FieldsN(line, 2)[1] != "" && FieldsN(line, 2)[1][0] != ' '
  {
    var t := TrimLeft(line);
    assert FieldsN(line, 2) == [t[..WordLen(t)]] + FieldsN(t[WordLen(t)..], 1);
  }

  /** What has been read so far is fit to be written again. */
  predicate Readable(m: Manifest) {
    (m.server == "" || Token(m.server)) && (m.name == "" || m.name[0] != ' ') && m.streamSize <= MAX_SIZE && m.shardSize <= MAX_SIZE
    && (m.dedupTag == "" || Token(m.dedupTag)) && 0 <= m.dataShards <= 16 && 0 <= m.parityShards <= 16
    && (m.dataShards == 0 ==> m.parityShards == 0)
    && forall i :: 0 <= i < |m.shards| ==> WellFormedShard(m.shards[i])
  }

  lemma {:induction false} LineKeepsReadable(m: Manifest, line: string)
    requires Readable(m) && '\n' !in line && ReadLine(m, line).Ok?
    ensures Readable(ReadLine(m, line).value)
  {
    hide Fields, FieldsN, Token, ParsedSize, IsSafeChunkId;
    FieldsAreTokens(line);
    if |FieldsN(line, 2)| == 2 {
      TailToken(line);
    }
    SizesWithin();
  }

  lemma {:induction false} SizesWithin()
    ensures forall text, limit :: ParsedSize(text, limit).Some? ==> ParsedSize(text, limit).value <= limit
  {
  }

  lemma {:induction false} LinesKeepReadable(m: Manifest, ls: seq<string>)
    requires Readable(m) && (forall i :: 0 <= i < |ls| ==> '\n' !in ls[i]) && ReadLines(m, ls).Ok?
    ensures Readable(ReadLines(m, ls).value)
    decreases |ls|
  {
    hide ReadLine, Readable;
    if ls != [] {
      LineKeepsReadable(m, ls[0]);
      LinesKeepReadable(ReadLine(m, ls[0]).value, ls[1..]);
    }
  }

  /** Whatever the file says: a manifest that reads has a safe name, a server, shards
      with an index from 0 to 3 and a safe id, and sizes and counts within bounds. Written
      again, it reads back as itself exactly when there was a layout line. */
  lemma {:induction false} ReadIsSound(text: string, m: Manifest)
    requires Parsed(text) == Ok(m)
    ensures Recordable(m) && m.name[0] != ' ' && (m.dataShards == 0 ==> m.parityShards == 0)
    ensures Parsed(Unlines(ManifestLines(m))) == Ok(m) <==> m.dataShards >= 1
  {
    hide Fields, Lines, ReadLines, ManifestLines, Unlines, IsSafeName, Token;
    LinesPlain(text);
    LinesKeepReadable(EMPTY, Lines(text)[1..]);
    assert IsSafeName(m.name) ==> m.name != "" by { SafeNotEmpty(m.name); }
    if m.dataShards >= 1 {
      ReadUndoesWrite(m);
    } else {
      WrittenLines(m);
      ReadNoLayout(m);
    }
  }

  lemma {:induction false} SafeNotEmpty(name: string)
    ensures IsSafeName(name) ==> name != ""
  {
  }

  /** The key and the number of fields it goes with. */
  predicate Known(line: string) {
    var f := Fields(line);
    f != [] && (f[0] == "name" || (f[0] in {"server", "stream-size", "shard-size", "dedup-tag"} && |f| == 2)
      || (f[0] == "layout" && |f| == 3) || (f[0] == "shard" && |f| == 4))
  }

  function OnlyKnown(ls: seq<string>): seq<string> {
    if ls == [] then [] else (if Known(ls[0]) then [ls[0]] else []) + OnlyKnown(ls[1..])
  }

  /** Lines with other keys, or with another number of fields, are passed over. */
  lemma {:induction false} UnknownIgnored(m: Manifest, ls: seq<string>)
    ensures ReadLines(m, ls) == ReadLines(m, OnlyKnown(ls))
    decreases |ls|
  {
    hide Fields, FieldsN, ParsedSize, IsSafeChunkId;
    if ls != [] {
      var rest := OnlyKnown(ls[1..]);
      if Known(ls[0]) {
        assert ([ls[0]] + rest)[1..] == rest;
        if ReadLine(m, ls[0]).Ok? {
          UnknownIgnored(ReadLine(m, ls[0]).value, ls[1..]);
        }
      } else {
        assert ReadLine(m, ls[0]) == Ok(m) && OnlyKnown(ls) == rest;
        UnknownIgnored(m, ls[1..]);
      }
    }
  }

  /** The cheap probe finds the server the full parse finds. */
  lemma {:induction false} PeekAgrees(m: Manifest)
    requires Recordable(m)
    ensures Peeked(Unlines(ManifestLines(m))) == Some(m.server)
  {
    hide Lines, Unlines, Fields, ShardLines, ToDecimal, IntText;
    WrittenLines(m);
    TwoFields("server", m.server);
    assert "server" + " " + m.server == "server " + m.server;
    assert ManifestLines(m)[1..][0] == "server " + m.server;
  }
}

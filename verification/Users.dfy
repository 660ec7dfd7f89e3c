/** The account list: a map from account to password verifier, kept equal to a
    text file that is only ever replaced whole. */
module Users {
  import opened Bytes
  import opened Wrappers
  import opened Protocol
  import opened Manifests
  import opened Store
  import opened Passwd

  const MAGIC: string := "pcs-users"
  const VERSION: string := "1"

  // ----- the file -----

  datatype Loaded = Loaded(accounts: map<string, string>, ok: bool)

  function LoadLine(accounts: map<string, string>, line: string): map<string, string> {
    var f := Fields(line);
    if |f| < 3 || f[0] != "user" || !IsValidUsername(f[1]) then accounts else accounts[f[1] := f[2]]
  }

  function LoadLines(accounts: map<string, string>, lines: seq<string>): map<string, string>
    decreases |lines|
  {
    if lines == [] then accounts else LoadLines(LoadLine(accounts, lines[0]), lines[1..])
  }

  /** What loading a file gives; no file, or an empty one, holds no accounts. */
  function Load(text: Option<string>): Loaded {
    if text.None? || Lines(text.value) == [] then Loaded(map[], true)
    else
      var ls := Lines(text.value);
      if Fields(ls[0]) != [MAGIC, VERSION] then Loaded(map[], false)
      else Loaded(LoadLines(map[], ls[1..]), true)
  }

  /** The date put on each line; it is asked for line by line. */
  type Clock = string -> string

  ghost predicate Dated(today: Clock) {
    forall name :: Token(today(name))
  }

  function UserLine(name: string, verifier: string, today: string): string {
    "user " + name + " " + verifier + " " + today
  }

  function UserLines(accounts: map<string, string>, names: seq<string>, today: Clock): (ls: seq<string>)
    requires forall n :: n in names ==> n in accounts
  {
    if names == [] then [] else [UserLine(names[0], accounts[names[0]], today(names[0]))] + UserLines(accounts, names[1..], today)
  }

  ghost function SavedText(accounts: map<string, string>, today: Clock): string {
    Unlines([MAGIC + " " + VERSION] + UserLines(accounts, Sorted(accounts.Keys), today))
  }

  ghost predicate GoodAccounts(accounts: map<string, string>) {
    forall n :: n in accounts ==> IsValidUsername(n) && Token(accounts[n])
  }

  lemma {:induction false} NameToken(name: string)
    requires IsValidUsername(name)
    ensures Token(name)
  {
  }

  lemma {:induction false} UserFields(name: string, verifier: string, today: string)
    requires Token(name) && Token(verifier) && Token(today)
    ensures Fields(UserLine(name, verifier, today)) == ["user", name, verifier, today]
    ensures '\n' !in UserLine(name, verifier, today)
  {
    hide Fields, Word;
    var rest := name + " " + (verifier + " " + today);
    assert UserLine(name, verifier, today) == "user" + " " + rest;
    assert Word("user") by { UserWord(); }
    WordThen("user", rest);
    WordThen(name, verifier + " " + today);
    WordThen(verifier, today);
    OneWord(today);
  }

  lemma {:induction false} UserWord()
    ensures Word("user") && Word(MAGIC) && Word(VERSION)
  {
  }

  lemma {:induction false} UserLinesPlain(accounts: map<string, string>, names: seq<string>, today: Clock)
    requires GoodAccounts(accounts) && Dated(today) && forall n :: n in names ==> n in accounts
    ensures forall i :: 0 <= i < |UserLines(accounts, names, today)| ==> '\n' !in UserLines(accounts, names, today)[i]
  {
    hide Fields, IsValidUsername, Token, UserLine;
    if names != [] {
      NameToken(names[0]);
      UserFields(names[0], accounts[names[0]], today(names[0]));
      UserLinesPlain(accounts, names[1..], today);
    }
  }

  lemma {:induction false} LoadUserLines(accounts: map<string, string>, names: seq<string>, today: Clock, got: map<string, string>)
    requires GoodAccounts(accounts) && Dated(today) && forall n :: n in names ==> n in accounts
    ensures LoadLines(got, UserLines(accounts, names, today)) == got + Only(accounts, names)
    decreases |names|
  {
    hide Fields, IsValidUsername, Token, UserLine;
    if names == [] {
      assert got + Only(accounts, names) == got;
    } else {
      var n, rest := names[0], names[1..];
      NameToken(n);
      UserFields(n, accounts[n], today(n));
      var ls := UserLines(accounts, names, today);
      assert ls[1..] == UserLines(accounts, rest, today);
      LoadUserLines(accounts, rest, today, got[n := accounts[n]]);
      OverrideFirst(got, accounts, names);
    }
  }

  /** Loading what was saved gives the same accounts back. */
  lemma {:induction false} LoadUndoesSave(accounts: map<string, string>, today: Clock)
    requires GoodAccounts(accounts) && Dated(today)
    ensures Load(Some(SavedText(accounts, today))) == Loaded(accounts, true)
  {
    hide Fields, Lines, Unlines, Token, IsValidUsername, LoadLines, UserLines, Sorted;
    var names, head := Sorted(accounts.Keys), MAGIC + " " + VERSION;
    var body := UserLines(accounts, names, today);
    UserLinesPlain(accounts, names, today);
    assert forall i :: 0 <= i < |head| ==> head[i] != '\n';
    LinesUnlines([head] + body);
    assert ([head] + body)[1..] == body;
    assert Fields(head) == [MAGIC, VERSION] by {
      UserWord();
      WordThen(MAGIC, VERSION);
      OneWord(VERSION);
    }
    LoadUserLines(accounts, names, today, map[]);
    assert Only(accounts, names) == accounts;
  }

  /** Whatever a file holds, the accounts loaded from it can be saved again. */
  lemma {:induction false} LoadedAreGood(text: Option<string>)
    ensures GoodAccounts(Load(text).accounts)
  {
    hide Fields, IsValidUsername, Token, LoadLines, Lines;
    if text.Some? && Lines(text.value) != [] {
      LinesPlain(text.value);
      LoadLinesGood(map[], Lines(text.value)[1..]);
    }
  }

  lemma {:induction false} LoadLinesGood(accounts: map<string, string>, lines: seq<string>)
    requires GoodAccounts(accounts) && forall i :: 0 <= i < |lines| ==> '\n' !in lines[i]
    ensures GoodAccounts(LoadLines(accounts, lines))
    decreases |lines|
  {
    hide Fields, IsValidUsername, Token;
    if lines != [] {
      FieldsAreTokens(lines[0]);
      LoadLinesGood(LoadLine(accounts, lines[0]), lines[1..]);
    }
  }

  /** A line that gives the account `name` its verifier. */
  predicate Gives(line: string, name: string) {
    |Fields(line)| >= 3 && Fields(line)[0] == "user" && Fields(line)[1] == name && IsValidUsername(name)
  }

  lemma {:induction false} LoadLinesIff(got: map<string, string>, ls: seq<string>, name: string)
    ensures name in LoadLines(got, ls) <==> name in got || exists i :: 0 <= i < |ls| && Gives(ls[i], name)
    ensures (forall i :: 0 <= i < |ls| ==> !Gives(ls[i], name)) && name in got ==> LoadLines(got, ls)[name] == got[name]
    ensures forall i :: (0 <= i < |ls| && Gives(ls[i], name) && (forall j :: i < j < |ls| ==> !Gives(ls[j], name))) ==>
      LoadLines(got, ls)[name] == Fields(ls[i])[2]
    decreases |ls|
  {
    hide Fields, IsValidUsername, Gives;
    if ls != [] {
      var rest, next := ls[1..], LoadLine(got, ls[0]);
      LoadLinesIff(next, rest, name);
      LineGives(got, ls[0], name);
      assert forall i :: 0 <= i < |rest| ==> rest[i] == ls[i + 1];
      assert forall i :: 1 <= i < |ls| ==> ls[i] == rest[i - 1];
      if i :| 0 <= i < |ls| && Gives(ls[i], name) && !Gives(ls[0], name) {
        assert Gives(rest[i - 1], name);
      }
    }
  }

  lemma {:induction false} LineGives(got: map<string, string>, line: string, name: string)
    ensures var next := LoadLine(got, line);
      if Gives(line, name) then name in next && next[name] == Fields(line)[2]
      else (name in next <==> name in got) && (name in got ==> next[name] == got[name])
  {
    hide Fields, IsValidUsername;
  }

  /** Whatever the file says: a wrong heading or version fails and leaves no accounts;
      otherwise exactly the valid names on a `user` line are accounts, each with the
      verifier on its last such line. */
  lemma {:induction false} LoadIff(text: string, name: string)
    ensures Load(Some(text)).ok <==> Lines(text) == [] || Fields(Lines(text)[0]) == ["pcs-users", "1"]
    ensures name in Load(Some(text)).accounts <==>
      Load(Some(text)).ok && exists i :: 1 <= i < |Lines(text)| && Gives(Lines(text)[i], name)
    ensures forall i :: (1 <= i < |Lines(text)| && Gives(Lines(text)[i], name) && Load(Some(text)).ok
      && (forall j :: i < j < |Lines(text)| ==> !Gives(Lines(text)[j], name))) ==>
        Load(Some(text)).accounts[name] == Fields(Lines(text)[i])[2]
  {
    hide Fields, Lines, LoadLines, Gives;
    if Lines(text) != [] {
      var ls, rest := Lines(text), Lines(text)[1..];
      LoadLinesIff(map[], rest, name);
      assert forall i :: 0 <= i < |rest| ==> rest[i] == ls[i + 1];
      assert forall i :: 1 <= i < |ls| ==> ls[i] == rest[i - 1];
    }
  }

  // ----- the life of an account -----

  /** What the process remembers, and the file. */
  datatype Model = Model(memory: map<string, string>, text: Option<string>)

  datatype Op =
    | Add(name: string, password: string, salt: seq<byte>)
    | SetPassword(name: string, password: string, salt: seq<byte>)
    | Remove(name: string)

  /** One call: whether its save goes through, and the dates it is written under. */
  datatype Call = Call(op: Op, saves: bool, today: Clock)

  /** The accounts a call wants to save; None when it is refused before that. */
  function Wanted(kdf: Stretch, accounts: map<string, string>, op: Op): Option<map<string, string>> {
    match op
    case Add(name, password, salt) =>
      var v := Hashed(kdf, password, PASSWORD_ITERATIONS, salt);
      if !IsValidUsername(name) || |password| < 8 || name in accounts || v == "" then None else Some(accounts[name := v])
    case SetPassword(name, password, salt) =>
      var v := Hashed(kdf, password, PASSWORD_ITERATIONS, salt);
      if |password| < 8 || name !in accounts || v == "" then None else Some(accounts[name := v])
    case Remove(name) => if name !in accounts then None else Some(accounts - {name})
  }

  ghost predicate Done(kdf: Stretch, m: Model, call: Call) {
    Wanted(kdf, m.memory, call.op).Some? && call.saves
  }

  ghost function After(kdf: Stretch, m: Model, call: Call): Model {
    if !Done(kdf, m, call) then m
    else var wanted := Wanted(kdf, m.memory, call.op).value; Model(wanted, Some(SavedText(wanted, call.today)))
  }

  ghost function AfterAll(kdf: Stretch, m: Model, calls: seq<Call>): Model
    decreases |calls|
  {
    if calls == [] then m else AfterAll(kdf, After(kdf, m, calls[0]), calls[1..])
  }

  // ----- what a caller is promised, said without the accounts -----

  /** The last password set for each account there is. A name is added once, only one
      that is there can be changed or removed, passwords have eight bytes or more, and
      a verifier has to come out. */
  predicate Granted(kdf: Stretch, last: map<string, string>, call: Call) {
    call.saves
    && match call.op
       case Add(name, password, salt) =>
         IsValidUsername(name) && name !in last && |password| >= 8 && Hashed(kdf, password, PASSWORD_ITERATIONS, salt) != ""
       case SetPassword(name, password, salt) =>
         name in last && |password| >= 8 && Hashed(kdf, password, PASSWORD_ITERATIONS, salt) != ""
       case Remove(name) => name in last
  }

  function LastSet(kdf: Stretch, last: map<string, string>, call: Call): map<string, string> {
    if !Granted(kdf, last, call) then last
    else if call.op.Remove? then last - {call.op.name}
    else last[call.op.name := call.op.password]
  }

  function LastSetAll(kdf: Stretch, last: map<string, string>, calls: seq<Call>): map<string, string>
    decreases |calls|
  {
    if calls == [] then last else LastSetAll(kdf, LastSet(kdf, last, calls[0]), calls[1..])
  }

  /** A call touches the account it names and no other: one that exists loses or
      changes its verifier only to a new password or a removal, and one that does not
      appears only by being added. */
  lemma {:induction false} OnlyItsOwnAccount(kdf: Stretch, m: Model, call: Call, name: string)
    ensures var before, after := m.memory, After(kdf, m, call).memory;
      (name in before && !(name in after && after[name] == before[name]) ==>
        call.op.name == name && (call.op.SetPassword? || call.op.Remove?))
      && (name !in before && name in after ==> call.op.Add? && call.op.name == name && IsValidUsername(name))
      && (name in before && name !in after ==> call.op.Remove?)
      && (after != before ==> call.saves)
  {
    hide Hashed, IsValidUsername, SavedText;
  }

  ghost predicate InSync(m: Model) {
    GoodAccounts(m.memory) && Load(m.text).accounts == m.memory
  }

  ghost predicate HashOf(kdf: Stretch, password: string, verifier: string) {
    verifier != "" && exists salt :: verifier == Hashed(kdf, password, PASSWORD_ITERATIONS, salt)
  }

  ghost predicate Matches(kdf: Stretch, accounts: map<string, string>, passwords: map<string, string>) {
    accounts.Keys == passwords.Keys && forall n :: n in accounts ==> HashOf(kdf, passwords[n], accounts[n])
  }

  lemma {:induction false} AfterKeeps(kdf: Stretch, m: Model, set0: map<string, string>, call: Call)
    requires InSync(m) && Matches(kdf, m.memory, set0) && Dated(call.today)
    ensures Done(kdf, m, call) <==> Granted(kdf, set0, call)
    ensures InSync(After(kdf, m, call)) && Matches(kdf, After(kdf, m, call).memory, LastSet(kdf, set0, call))
  {
    hide Load, Hashed, Token, IsValidUsername, SavedText;
    if Done(kdf, m, call) {
      var wanted := Wanted(kdf, m.memory, call.op).value;
      if !call.op.Remove? {
        VerifiesExactly(kdf, call.op.password, PASSWORD_ITERATIONS, call.op.salt, "");
        assert HashOf(kdf, call.op.password, wanted[call.op.name]);
      }
      assert GoodAccounts(wanted);
      LoadUndoesSave(wanted, call.today);
    }
  }

  /** After any run of calls, whichever of their saves fail, the process remembers
      what the file holds, and each verifier is of the last password set. */
  lemma {:induction false} EveryRunStaysInSync(kdf: Stretch, m: Model, set0: map<string, string>, calls: seq<Call>)
    requires InSync(m) && Matches(kdf, m.memory, set0) && forall i :: 0 <= i < |calls| ==> Dated(calls[i].today)
    ensures InSync(AfterAll(kdf, m, calls))
    ensures Matches(kdf, AfterAll(kdf, m, calls).memory, LastSetAll(kdf, set0, calls))
    decreases |calls|
  {
    hide InSync, Matches, Token, After, LastSet;
    if calls != [] {
      AfterKeeps(kdf, m, set0, calls[0]);
      EveryRunStaysInSync(kdf, After(kdf, m, calls[0]), LastSet(kdf, set0, calls[0]), calls[1..]);
    }
  }

  function VerifiesIn(kdf: Stretch, accounts: map<string, string>, name: string, password: string): bool {
    name in accounts && accounts[name] != "" && Verifies(kdf, password, accounts[name])
  }

  /** Two passwords that meet here never share a hash under one salt. */
  ghost predicate Separates(kdf: Stretch, passwords: set<string>) {
    forall p, q, salt :: (p in passwords && q in passwords
      && kdf(p, salt, PASSWORD_ITERATIONS) == kdf(q, salt, PASSWORD_ITERATIONS)) ==> p == q
  }

  /** After any run of calls from no accounts at all, a fresh load of the file
      accepts a password for an account exactly when the account exists and this is
      the last password successfully set for it. */
  lemma {:induction false} FreshLoadVerifiesLastSet(kdf: Stretch, calls: seq<Call>, name: string, attempt: string, passwords: set<string>)
    requires forall i :: 0 <= i < |calls| ==> Dated(calls[i].today)
    requires Separates(kdf, passwords) && attempt in passwords
    requires var last := LastSetAll(kdf, map[], calls); forall n :: n in last ==> last[n] in passwords
    ensures var m, last := AfterAll(kdf, Model(map[], None), calls), LastSetAll(kdf, map[], calls);
      VerifiesIn(kdf, Load(m.text).accounts, name, attempt) <==> name in last && attempt == last[name]
  {
    hide AfterAll, LastSetAll, Hashed, Verifies, Token;
    var m0 := Model(map[], None);
    EveryRunStaysInSync(kdf, m0, map[], calls);
    var m, last := AfterAll(kdf, m0, calls), LastSetAll(kdf, map[], calls);
    if name in m.memory {
      assert HashOf(kdf, last[name], m.memory[name]);
      var salt :| m.memory[name] == Hashed(kdf, last[name], PASSWORD_ITERATIONS, salt);
      VerifiesExactly(kdf, last[name], PASSWORD_ITERATIONS, salt, attempt);
    }
  }

  // ----- the store of accounts -----

  /** The file, and the timestamp its last replacement gave it. */
  class UserFile {
    var text: Option<string>
    var stamp: nat

    constructor ()
      ensures text == None
    {
      text, stamp := None, 0;
    }

    function Stamp(): Option<nat>
      reads this
    {
      if text.Some? then Some(stamp) else None
    }
  }

  class UserStore {
    const kdf: Stretch
    const file: UserFile
    var verifiers: map<string, string>
    var loadedStamp: Option<nat>

    constructor (kdf: Stretch, file: UserFile)
      ensures this.kdf == kdf && this.file == file && verifiers == map[] && loadedStamp == None
    {
      this.kdf, this.file, verifiers, loadedStamp := kdf, file, map[], None;
    }

    ghost function AsModel(): Model
      reads this, file
    {
      Model(verifiers, file.text)
    }

    method LoadFile() returns (ok: bool)
      modifies this
      ensures Loaded(verifiers, ok) == Load(file.text) && loadedStamp == file.Stamp()
    {
      hide Fields, Lines, IsValidUsername;
      verifiers := map[];
      loadedStamp := file.Stamp();
      if file.text.None? {
        return true;
      }
      var text := file.text.value;
      assert text[0..] == text;
      var more, line, pos := GetLine(text, 0);
      if !more {
        return true;
      }
      var head := Split(line);
      assert ([line] + Lines(text[pos..]))[1..] == Lines(text[pos..]);
      if |head| != 2 || head[0] != MAGIC || head[1] != VERSION {
        return false;
      }
      assert head == [MAGIC, VERSION];
      more, line, pos := GetLine(text, pos);
      while more
        invariant pos <= |text|
        invariant more ==> LoadLines(LoadLine(verifiers, line), Lines(text[pos..])) == Load(file.text).accounts
        invariant !more ==> verifiers == Load(file.text).accounts
        invariant loadedStamp == file.Stamp()
        decreases |text| - pos, more
      {
        var f := Split(line);
        if |f| >= 3 && f[0] == "user" && IsValidUsername(f[1]) {
          verifiers := verifiers[f[1] := f[2]];
        }
        more, line, pos := NextLine(text, pos, verifiers);
      }
      return true;
    }

    /** Replaces the file, or, when the write or the rename fails, leaves it. */
    method SaveFile(saves: bool, today: Clock, stamp: nat) returns (ok: bool)
      modifies file, `loadedStamp
      ensures ok == saves && file.text == if saves then Some(SavedText(verifiers, today)) else old(file.text)
      ensures saves ==> loadedStamp == file.Stamp()
      ensures !saves ==> loadedStamp == old(loadedStamp) && file.stamp == old(file.stamp)
    {
      hide Unlines, UserLine, Sorted;
      var names := SortNames(verifiers.Keys);
      ghost var written: seq<string> := [];
      var text := "";
      assert text == Unlines(written) by { NoLine(); }
      text, written := PutLine(text, written, MAGIC + " " + VERSION);
      for i := 0 to |names|
        modifies {}
        invariant text == Unlines(written)
        invariant written == [MAGIC + " " + VERSION] + UserLines(verifiers, names[..i], today)
      {
        OneMore(verifiers, names[..i], names[i], today);
        assert names[..i + 1] == names[..i] + [names[i]];
        text, written := PutLine(text, written, UserLine(names[i], verifiers[names[i]], today(names[i])));
      }
      assert names[..|names|] == names;
      if !saves {
        return false;
      }
      file.text, file.stamp := Some(text), stamp;
      loadedStamp := file.Stamp();
      return true;
    }

    method Add(name: string, password: string, salt: seq<byte>, saves: bool, today: Clock, stamp: nat) returns (ok: bool)
      modifies this, file
      ensures var call := Call(Op.Add(name, password, salt), saves, today);
        AsModel() == After(kdf, old(AsModel()), call) && ok == Done(kdf, old(AsModel()), call)
    {
      hide Hashed, IsValidUsername, SavedText;
      if !IsValidUsername(name) || |password| < 8 || name in verifiers {
        return false;
      }
      var verifier := HashPassword(kdf, password, PASSWORD_ITERATIONS, salt);
      if verifier == "" {
        return false;
      }
      var before := verifiers;
      verifiers := verifiers[name := verifier];
      ok := SaveFile(saves, today, stamp);
      if !ok {
        verifiers := verifiers - {name};
        assert verifiers == before;
      }
    }

    method SetPassword(name: string, password: string, salt: seq<byte>, saves: bool, today: Clock, stamp: nat) returns (ok: bool)
      modifies this, file
      ensures var call := Call(Op.SetPassword(name, password, salt), saves, today);
        AsModel() == After(kdf, old(AsModel()), call) && ok == Done(kdf, old(AsModel()), call)
    {
      hide Hashed, IsValidUsername, SavedText;
      if |password| < 8 || name !in verifiers {
        return false;
      }
      var previous := verifiers[name];
      var verifier := HashPassword(kdf, password, PASSWORD_ITERATIONS, salt);
      verifiers := verifiers[name := verifier];
      ok := verifiers[name] != "";
      if ok {
        ok := SaveFile(saves, today, stamp);
      }
      if !ok {
        verifiers := verifiers[name := previous];
        assert verifiers == old(verifiers);
      }
    }

    method Remove(name: string, saves: bool, today: Clock, stamp: nat) returns (ok: bool)
      modifies this, file
      ensures var call := Call(Op.Remove(name), saves, today);
        AsModel() == After(kdf, old(AsModel()), call) && ok == Done(kdf, old(AsModel()), call)
    {
      hide SavedText;
      if name !in verifiers {
        return false;
      }
      var previous := verifiers[name];
      verifiers := verifiers - {name};
      ok := SaveFile(saves, today, stamp);
      if !ok {
        verifiers := verifiers[name := previous];
        assert verifiers == old(verifiers);
      }
    }

    /** Looks again at a file another process has replaced, then checks. */
    method Verify(name: string, password: string) returns (ok: bool)
      modifies this
      ensures verifiers == if file.Stamp().None? || file.Stamp() == old(loadedStamp) then old(verifiers) else Load(file.text).accounts
      ensures ok == VerifiesIn(kdf, verifiers, name, password)
    {
      if file.text.Some? && Some(file.stamp) != loadedStamp {
        var ignored := LoadFile();
      }
      if name !in verifiers || verifiers[name] == "" {
        return false;
      }
      ok := VerifyPassword(kdf, password, verifiers[name]);
    }
  }

  lemma {:induction false} OneMore(accounts: map<string, string>, names: seq<string>, name: string, today: Clock)
    requires name in accounts && forall n :: n in names ==> n in accounts
    ensures UserLines(accounts, names + [name], today) == UserLines(accounts, names, today) + [UserLine(name, accounts[name], today(name))]
    decreases |names|
  {
    hide UserLine;
    if names == [] {
      assert [name][1..] == [];
    } else {
      OneMore(accounts, names[1..], name, today);
      assert (names + [name])[1..] == names[1..] + [name];
    }
  }

  method NextLine(text: string, pos: nat, ghost accounts: map<string, string>) returns (more: bool, line: string, next: nat)
    requires pos <= |text|
    ensures pos <= next <= |text| && (more ==> next > pos)
    ensures LoadLines(accounts, Lines(text[pos..])) == if more then LoadLines(LoadLine(accounts, line), Lines(text[next..])) else accounts
  {
    hide Lines, LoadLine;
    more, line, next := GetLine(text, pos);
    if more {
      assert ([line] + Lines(text[next..]))[1..] == Lines(text[next..]);
    }
  }
}

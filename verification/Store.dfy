/** Where the server keeps things: one tree of paths under a root, holding for
    each account a file and a tag sidecar per name, and the shared chunks. */
module Store {
  import opened Wrappers
  import opened SafeName
  import opened Manifests

  /** File contents by path. */
  type Fs = map<string, string>

  predicate UserChar(c: char) {
    'a' <= c <= 'z' || '0' <= c <= '9' || c == '-' || c == '_'
  }

  predicate IsValidUsername(name: string) {
    1 <= |name| <= 32 && 'a' <= name[0] <= 'z' && forall i :: 0 <= i < |name| ==> UserChar(name[i])
  }

  function AccountDir(root: string, user: string): (p: Option<string>) {
    if IsValidUsername(user) then Some(root + "/users/" + user) else None
  }

  function FilePath(root: string, user: string, name: string): (p: Option<string>) {
    match AccountDir(root, user)
    case None => None
    case Some(base) => if IsSafeName(name) then Some(base + "/files/" + name) else None
  }

  function TagPath(root: string, user: string, name: string): (p: Option<string>) {
    match AccountDir(root, user)
    case None => None
    case Some(base) => if IsSafeName(name) then Some(base + "/meta/" + name + ".tag") else None
  }

  function ChunkPath(root: string, id: string): (p: Option<string>) {
    if IsSafeChunkId(id) then Some(root + "/chunks/" + id) else None
  }

  function TempPath(root: string, hex: string): string {
    root + "/tmp/" + hex + ".part"
  }

  // ----- distinct things live at distinct paths -----

  predicate Component(s: string) {
    '/' !in s
  }

  lemma {:induction false} SplitAtSlash(u: string, a: string, u': string, a': string)
    requires Component(u) && Component(u') && u + "/" + a == u' + "/" + a'
    ensures u == u' && a == a'
  {
    var s, s' := u + "/" + a, u' + "/" + a';
    assert s[|u|] == '/' && s'[|u'|] == '/';
    assert forall i :: 0 <= i < |u| ==> s[i] == u[i] && u[i] in u;
    assert forall i :: 0 <= i < |u'| ==> s'[i] == u'[i] && u'[i] in u';
    assert |u| == |u'|;
    assert s[..|u|] == u && s'[..|u'|] == u' && s[|u| + 1..] == a && s'[|u'| + 1..] == a';
  }

  lemma {:induction false} NameIsComponent(name: string)
    requires IsSafeName(name)
    ensures Component(name)
  {
  }

  lemma {:induction false} UserIsComponent(user: string)
    requires IsValidUsername(user)
    ensures Component(user)
  {
  }

  lemma {:induction false} SamePrefix(p: string, a: string, b: string)
    requires p + a == p + b
    ensures a == b
  {
    assert (p + a)[|p|..] == a && (p + b)[|p|..] == b;
  }

  /** The part of an account's path after the account directory. */
  lemma {:induction false} AccountPathsDiffer(root: string, user: string, tail: string, user': string, tail': string)
    requires IsValidUsername(user) && IsValidUsername(user')
    requires root + "/users/" + user + ("/" + tail) == root + "/users/" + user' + ("/" + tail')
    ensures user == user' && tail == tail'
  {
    UserIsComponent(user);
    UserIsComponent(user');
    assert root + "/users/" + user + ("/" + tail) == (root + "/users/") + (user + "/" + tail);
    assert root + "/users/" + user' + ("/" + tail') == (root + "/users/") + (user' + "/" + tail');
    SamePrefix(root + "/users/", user + "/" + tail, user' + "/" + tail');
    SplitAtSlash(user, tail, user', tail');
  }

  lemma {:induction false} FileShape(root: string, user: string, name: string)
    requires FilePath(root, user, name).Some?
    ensures IsValidUsername(user) && IsSafeName(name)
    ensures FilePath(root, user, name).value == root + "/users/" + user + ("/" + ("files/" + name))
    ensures TagPath(root, user, name).Some?
    ensures TagPath(root, user, name).value == root + "/users/" + user + ("/" + ("meta/" + name + ".tag"))
  {
    assert "/files/" + name == "/" + ("files/" + name);
    assert "/meta/" + name + ".tag" == "/" + ("meta/" + name + ".tag");
  }

  /** (account, name) determines the path of the file and of its tag, and no file
      is ever at the path of a tag. */
  lemma {:induction false} PathsInjective(root: string, user: string, name: string, user': string, name': string)
    requires FilePath(root, user, name).Some? && FilePath(root, user', name').Some?
    ensures FilePath(root, user, name) == FilePath(root, user', name') ==> user == user' && name == name'
    ensures TagPath(root, user, name) == TagPath(root, user', name') ==> user == user' && name == name'
    ensures FilePath(root, user, name) != TagPath(root, user', name')
  {
    FileShape(root, user, name);
    FileShape(root, user', name');
    var file, tag := "files/" + name, "meta/" + name + ".tag";
    var file', tag' := "files/" + name', "meta/" + name' + ".tag";
    if FilePath(root, user, name) == FilePath(root, user', name') {
      AccountPathsDiffer(root, user, file, user', file');
      SamePrefix("files/", name, name');
    }
    if TagPath(root, user, name) == TagPath(root, user', name') {
      AccountPathsDiffer(root, user, tag, user', tag');
      assert tag[5..|tag| - 4] == name && tag'[5..|tag'| - 4] == name';
    }
    assert file[0] == 'f' && tag'[0] == 'm';
    if FilePath(root, user, name) == TagPath(root, user', name') {
      AccountPathsDiffer(root, user, file, user', tag');
    }
  }

  /** Account files, chunks and temporary files never share a path. */
  lemma {:induction false} AreasDisjoint(root: string, user: string, name: string, id: string, hex: string)
    requires FilePath(root, user, name).Some?
    ensures Some(TempPath(root, hex)) != FilePath(root, user, name) && Some(TempPath(root, hex)) != TagPath(root, user, name)
    ensures ChunkPath(root, id).Some? ==>
      ChunkPath(root, id) != FilePath(root, user, name) && ChunkPath(root, id) != TagPath(root, user, name)
      && ChunkPath(root, id) != Some(TempPath(root, hex))
  {
    FileShape(root, user, name);
    var f, t := FilePath(root, user, name).value, TagPath(root, user, name).value;
    assert f[|root| + 1] == 'u' && t[|root| + 1] == 'u' && TempPath(root, hex)[|root| + 1] == 't';
    if ChunkPath(root, id).Some? {
      assert ChunkPath(root, id).value[|root| + 1] == 'c';
    }
  }

  lemma {:induction false} ChunkPathInjective(root: string, id: string, id': string)
    requires ChunkPath(root, id).Some? && ChunkPath(root, id) == ChunkPath(root, id')
    ensures id == id'
  {
    SamePrefix(root + "/chunks/", id, id');
  }

  /** No component of a path built from validated parts can climb out of the root. */
  lemma {:induction false} StaysUnderRoot(root: string, user: string, name: string)
    requires FilePath(root, user, name).Some?
    ensures FilePath(root, user, name).value == root + "/users/" + user + "/files/" + name
    ensures Component(user) && user != "" && user != "." && user != ".." && |user| <= 32 && 'a' <= user[0] <= 'z'
    ensures Component(name) && name != "" && name[0] != '.' && |name| <= 255
  {
    UserIsComponent(user);
    NameIsComponent(name);
  }

  // ----- operations -----

  /** The tag a sidecar holds: its first line, nothing if there is no sidecar. */
  function TagOf(fs: Fs, path: string): string {
    if path in fs && Lines(fs[path]) != [] then Lines(fs[path])[0] else ""
  }

  /** Size and tag of a stored file. */
  function FileInfo(fs: Fs, root: string, user: string, name: string): (r: Option<(nat, string)>) {
    match FilePath(root, user, name)
    case None => None
    case Some(path) =>
      if path !in fs then None
      else Some((|fs[path]|, TagOf(fs, TagPath(root, user, name).value)))
  }

  function Committed(fs: Fs, root: string, user: string, name: string, body: string, tag: string): Fs
    requires FilePath(root, user, name).Some?
  {
    fs[FilePath(root, user, name).value := body][TagPath(root, user, name).value := tag + "\n"]
  }

  function Removed(fs: Fs, root: string, user: string, name: string): Fs {
    match FilePath(root, user, name)
    case None => fs
    case Some(path) => fs - {path} - {TagPath(root, user, name).value}
  }

  // ----- what a client can see of the store -----

  datatype Item = Item(body: string, tag: string)

  function View(fs: Fs, root: string, user: string, name: string): (v: Option<Item>) {
    match FilePath(root, user, name)
    case None => None
    case Some(path) => if path in fs then Some(Item(fs[path], TagOf(fs, TagPath(root, user, name).value))) else None
  }

  lemma {:induction false} TagLine(tag: string)
    requires '\n' !in tag
    ensures Lines(tag + "\n") == [tag]
  {
    LinesUnlines([tag]);
    assert [tag][1..] == [];
    assert Unlines([tag]) == tag + "\n";
  }

  /** A commit shows at its own name, with its own tag, and nowhere else. */
  lemma {:induction false} CommitView(fs: Fs, root: string, user: string, name: string, body: string, tag: string, user': string, name': string)
    requires FilePath(root, user, name).Some? && '\n' !in tag
    ensures View(Committed(fs, root, user, name, body, tag), root, user', name')
      == if (user', name') == (user, name) then Some(Item(body, tag)) else View(fs, root, user', name')
  {
    TagLine(tag);
    FileShape(root, user, name);
    if FilePath(root, user', name').Some? {
      FileShape(root, user', name');
      PathsInjective(root, user, name, user', name');
      PathsInjective(root, user', name', user, name);
    }
  }

  /** A removal takes the file and its tag, and nothing else. */
  lemma {:induction false} RemoveView(fs: Fs, root: string, user: string, name: string, user': string, name': string)
    requires FilePath(root, user, name).Some?
    ensures View(Removed(fs, root, user, name), root, user', name')
      == if (user', name') == (user, name) then None else View(fs, root, user', name')
    ensures TagPath(root, user, name).value !in Removed(fs, root, user, name)
  {
    FileShape(root, user, name);
    if FilePath(root, user', name').Some? {
      FileShape(root, user', name');
      PathsInjective(root, user, name, user', name');
      PathsInjective(root, user', name', user, name);
    }
  }

  /** Chunks are invisible to every account's files. */
  lemma {:induction false} ChunkView(fs: Fs, root: string, id: string, data: string, user: string, name: string)
    requires ChunkPath(root, id).Some?
    ensures View(fs[ChunkPath(root, id).value := data], root, user, name) == View(fs, root, user, name)
    ensures View(fs - {ChunkPath(root, id).value}, root, user, name) == View(fs, root, user, name)
  {
    if FilePath(root, user, name).Some? {
      AreasDisjoint(root, user, name, id, "");
      FileShape(root, user, name);
    }
  }

  // ----- listings -----

  /** Byte-wise dictionary order. */
  predicate LexLe(a: string, b: string) {
    a == "" || (b != "" && (a[0] < b[0] || (a[0] == b[0] && LexLe(a[1..], b[1..]))))
  }

  lemma {:induction false} LexTotal(a: string, b: string)
    ensures LexLe(a, b) || LexLe(b, a)
    ensures LexLe(a, b) && LexLe(b, a) ==> a == b
  {
    if a != "" && b != "" && a[0] == b[0] {
      LexTotal(a[1..], b[1..]);
      assert a == [a[0]] + a[1..] && b == [b[0]] + b[1..];
    }
  }

  lemma {:induction false} LexTrans(a: string, b: string, c: string)
    requires LexLe(a, b) && LexLe(b, c)
    ensures LexLe(a, c)
  {
    if a != "" && a[0] == b[0] && b[0] == c[0] {
      LexTrans(a[1..], b[1..], c[1..]);
    }
  }

  ghost predicate IsLeast(m: string, s: set<string>) {
    m in s && forall x :: x in s ==> LexLe(m, x)
  }

  lemma {:induction false} LeastExists(s: set<string>)
    requires s != {}
    ensures exists m :: IsLeast(m, s)
    decreases |s|
  {
    var x :| x in s;
    if s == {x} {
      LexTotal(x, x);
      assert IsLeast(x, s);
    } else {
      var rest := s - {x};
      assert s == rest + {x} && rest != {};
      LeastExists(rest);
      var m :| IsLeast(m, rest);
      LexTotal(x, m);
      LexTotal(x, x);
      if LexLe(x, m) {
        forall y | y in rest ensures LexLe(x, y) { LexTrans(x, m, y); }
        assert IsLeast(x, s);
      } else {
        assert IsLeast(m, s);
      }
    }
  }

  /** The names in dictionary order, each once. */
  ghost function Sorted(s: set<string>): (ns: seq<string>)
    ensures |ns| == |s| && forall n :: n in ns <==> n in s
    decreases |s|
  {
    if s == {} then []
    else
      LeastExists(s);
      var m :| IsLeast(m, s);
      assert s == (s - {m}) + {m};
      [m] + Sorted(s - {m})
  }

  /** The order is byte-wise, and no name comes twice. */
  lemma {:induction false} SortedInOrder(s: set<string>, i: nat, j: nat)
    requires i < j < |s|
    ensures LexLe(Sorted(s)[i], Sorted(s)[j]) && Sorted(s)[i] != Sorted(s)[j]
    decreases |s|
  {
    hide LexLe, Sorted;
    LeastExists(s);
    var m :| IsLeast(m, s);
    OnlyLeast(s, m);
    if i == 0 {
      assert Sorted(s)[j] in Sorted(s - {m});
    } else {
      SortedInOrder(s - {m}, i - 1, j - 1);
    }
  }

  /** The names of an account's stored files. */
  function NamesOf(fs: Fs, root: string, user: string): (names: set<string>) {
    match AccountDir(root, user)
    case None => {}
    case Some(base) =>
      var prefix := base + "/files/";
      set path | path in fs.Keys && prefix <= path && IsSafeName(path[|prefix|..]) :: path[|prefix|..]
  }

  lemma {:induction false} NamesAreViews(fs: Fs, root: string, user: string, name: string)
    ensures name in NamesOf(fs, root, user) <==> View(fs, root, user, name).Some?
  {
    if IsValidUsername(user) {
      var prefix := AccountDir(root, user).value + "/files/";
      if View(fs, root, user, name).Some? {
        assert prefix <= prefix + name && (prefix + name)[|prefix|..] == name;
      }
      if name in NamesOf(fs, root, user) {
        var path :| path in fs.Keys && prefix <= path && IsSafeName(path[|prefix|..]) && path[|prefix|..] == name;
        assert path == prefix + name;
      }
    }
  }

  /** Directory order is arbitrary; the listing is sorted before it is sent. */
  method SortNames(names: set<string>) returns (ns: seq<string>)
    ensures ns == Sorted(names)
  {
    hide Sorted, IsLeast;
    ns := [];
    var left := names;
    assert ns + Sorted(left) == Sorted(names);
    while left != {}
      invariant Sorted(names) == ns + Sorted(left)
      decreases |left|
    {
      var m := PickLeast(left);
      OnlyLeast(left, m);
      assert ns + ([m] + Sorted(left - {m})) == ns + [m] + Sorted(left - {m});
      ns := ns + [m];
      left := left - {m};
    }
  }

  method PickLeast(s: set<string>) returns (m: string)
    requires s != {}
    ensures IsLeast(m, s)
  {
    var x :| x in s;
    m := x;
    LexTotal(x, x);
    var left := s - {x};
    while left != {}
      invariant left <= s && m in s && m !in left
      invariant forall y :: y in s - left ==> LexLe(m, y)
      decreases |left|
    {
      x :| x in left;
      LexTotal(x, m);
      LexTotal(x, x);
      left := left - {x};
      if !LexLe(m, x) {
        forall y | y in s - left ensures LexLe(x, y) {
          if y != x {
            LexTrans(x, m, y);
          }
        }
        m := x;
      }
    }
  }

  lemma {:induction false} OnlyLeast(s: set<string>, m: string)
    requires IsLeast(m, s)
    ensures Sorted(s) == [m] + Sorted(s - {m}) && |s - {m}| < |s|
  {
    assert s == (s - {m}) + {m};
    LeastExists(s);
    forall x | IsLeast(x, s) ensures x == m { LexTotal(x, m); }
  }
}

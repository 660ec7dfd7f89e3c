/** The watcher's memory of what it last uploaded, one line per file. */
module Watch {
  import opened Wrappers
  import opened Protocol
  import opened SafeName
  import opened Manifests
  import opened Store
  import opened Text

  datatype Seen = Seen(size: nat, modified: int)

  type Entries = map<string, Seen>

  const MAGIC: string := "pcs-watch"
  const VERSION: string := "1"

  function EntryLine(name: string, seen: Seen): string {
    "file " + ToDecimal(seen.size) + " " + IntText(seen.modified) + " " + name
  }

  /** The entry on a line. The name is found by searching the line for the text of
      the modification time. */
  function EntryOf(line: string): Option<(string, Seen)> {
    var f := Fields(line);
    if |f| < 4 || f[0] != "file" then None
    else match (ParsedSize(f[1], MAX_SIZE), Find(line, f[2], 0))
      case (Some(size), Some(at)) =>
        var from := at + |f[2]| + 1;
        if from >= |line| then None else Some((line[from..], Seen(size, Strtoll(f[2]))))
      case _ => None
  }

  function WithLine(entries: Entries, line: string): Entries {
    match EntryOf(line) case Some((name, seen)) => entries[name := seen] case None => entries
  }

  function LoadLines(entries: Entries, lines: seq<string>): Entries
    decreases |lines|
  {
    if lines == [] then entries else LoadLines(WithLine(entries, lines[0]), lines[1..])
  }

  /** None is a file that is not a state file of this version. */
  function Loaded(text: Option<string>): Option<Entries> {
    if text.None? || Lines(text.value) == [] then Some(map[])
    else
      var ls := Lines(text.value);
      if Fields(ls[0]) != [MAGIC, VERSION] then None else Some(LoadLines(map[], ls[1..]))
  }

  function EntryLines(entries: Entries, names: seq<string>): seq<string>
    requires forall n :: n in names ==> n in entries
  {
    if names == [] then [] else [EntryLine(names[0], entries[names[0]])] + EntryLines(entries, names[1..])
  }

  ghost function SavedText(entries: Entries): string {
    Unlines([MAGIC + " " + VERSION] + EntryLines(entries, Sorted(entries.Keys)))
  }

  // ----- one line -----

  ghost predicate Inside(key: string, s: string) {
    exists i :: 0 <= i <= |s| - |key| && OccursAt(s, key, i)
  }

  /** A line is read back as it was written exactly under these conditions. */
  ghost predicate Faithful(name: string, seen: Seen) {
    seen.size <= MAX_SIZE && Fields(name) != [] && !Inside(IntText(seen.modified), ToDecimal(seen.size))
  }

  predicate Int64(i: int) {
    INT64_MIN <= i <= INT64_MAX
  }

  lemma {:induction false} LineFields(name: string, seen: Seen)
    ensures Fields(EntryLine(name, seen)) == ["file", ToDecimal(seen.size), IntText(seen.modified)] + Fields(name)
  {
    hide Fields, ToDecimal, Word;
    var size, modified := ToDecimal(seen.size), IntText(seen.modified);
    NumberWord(seen.modified);
    assert Word("file") by { FileWord(); }
    WordThen(modified, name);
    WordThen(size, modified + " " + name);
    WordThen("file", size + " " + (modified + " " + name));
    assert EntryLine(name, seen) == "file" + " " + (size + " " + (modified + " " + name));
  }

  lemma {:induction false} FileWord()
    ensures Word("file") && Word(MAGIC) && Word(VERSION)
  {
  }

  lemma {:induction false} NumberWord(i: int)
    ensures Word(IntText(i)) && forall c :: c in IntText(i) ==> c == '-' || Digit(c)
  {
    hide ToDecimal;
    var d := ToDecimal(if i < 0 then -i else i);
    assert forall c :: c in d ==> Digit(c);
  }

  /** The first place the time occurs is its own, unless it occurs in the size. */
  lemma {:induction false} TimeFound(size: string, time: string, name: string)
    requires Word(size) && Word(time) && forall c :: c in time ==> c == '-' || Digit(c)
    ensures var line, at := "file " + size + " " + time + " " + name, Find("file " + size + " " + time + " " + name, time, 0);
      at.Some? && at.value <= 6 + |size| && (at.value == 6 + |size| <==> !Inside(time, size))
  {
    hide Find;
    var line, p := "file " + size + " " + time + " " + name, 6 + |size|;
    assert line[p..p + |time|] == time;
    assert OccursAt(line, time, p);
    var at := Find(line, time, 0).value;
    if Inside(time, size) {
      var i :| 0 <= i <= |size| - |time| && OccursAt(size, time, i);
      assert line[5 + i..5 + i + |time|] == size[i..i + |time|];
      assert OccursAt(line, time, 5 + i);
    } else if at < p {
      TimeNotEarlier(size, time, name, at);
    }
  }

  lemma {:induction false} TimeNotEarlier(size: string, time: string, name: string, at: nat)
    requires Word(size) && Word(time) && forall c :: c in time ==> c == '-' || Digit(c)
    requires at < 6 + |size| && OccursAt("file " + size + " " + time + " " + name, time, at)
    ensures Inside(time, size)
  {
    var line := "file " + size + " " + time + " " + name;
    forall j | at <= j < at + |time| ensures line[j] == '-' || Digit(line[j]) {
      assert line[at..at + |time|][j - at] == line[j];
      assert time[j - at] in time;
    }
    assert line[0] == 'f' && line[1] == 'i' && line[2] == 'l' && line[3] == 'e' && line[4] == ' ';
    assert line[at] == '-' || Digit(line[at]);
    assert at >= 5;
    assert line[5 + |size|] == ' ';
    assert at + |time| <= 5 + |size|;
    assert line[5..5 + |size|] == size;
    assert size[at - 5..at - 5 + |time|] == line[at..at + |time|];
    assert OccursAt(size, time, at - 5);
  }

  lemma {:induction false} EntryReadsBack(name: string, seen: Seen)
    requires Int64(seen.modified) && seen.size < U64
    ensures EntryOf(EntryLine(name, seen)) == Some((name, seen)) <==> Faithful(name, seen)
  {
    hide Fields, ToDecimal, IntText, Find, Inside, Strtoll;
    var size, time := ToDecimal(seen.size), IntText(seen.modified);
    var line := EntryLine(name, seen);
    LineFields(name, seen);
    NumberWord(seen.modified);
    TimeFound(size, time, name);
    StrtollPrinted(seen.modified);
    ParsePrinted(seen.size, MAX_SIZE);
    assert name == "" ==> Fields(name) == [] by { NoFields(); }
    var p := 6 + |size|;
    assert line[p + |time| + 1..] == name;
  }

  lemma {:induction false} NoFields()
    ensures Fields("") == []
  {
  }

  // ----- the whole file -----

  ghost predicate GoodEntries(entries: Entries) {
    forall n :: n in entries ==> '\n' !in n && Int64(entries[n].modified) && Faithful(n, entries[n])
  }

  lemma {:induction false} LinePlain(name: string, seen: Seen)
    requires '\n' !in name
    ensures '\n' !in EntryLine(name, seen)
  {
    hide ToDecimal;
    NumberWord(seen.modified);
    NumberWord(seen.size);
  }

  lemma {:induction false} LinesPlain(entries: Entries, names: seq<string>)
    requires forall n :: n in names ==> n in entries && '\n' !in n
    ensures forall i :: 0 <= i < |EntryLines(entries, names)| ==> '\n' !in EntryLines(entries, names)[i]
  {
    hide EntryLine;
    if names != [] {
      LinePlain(names[0], entries[names[0]]);
      LinesPlain(entries, names[1..]);
    }
  }

  lemma {:induction false} LoadEntryLines(entries: Entries, names: seq<string>, got: Entries)
    requires GoodEntries(entries) && forall n :: n in names ==> n in entries
    ensures LoadLines(got, EntryLines(entries, names)) == got + Only(entries, names)
    decreases |names|
  {
    hide EntryOf, EntryLine, Faithful;
    if names == [] {
      assert got + Only(entries, names) == got;
    } else {
      var n, rest := names[0], names[1..];
      SizeInRange(n, entries[n]);
      EntryReadsBack(n, entries[n]);
      assert EntryLines(entries, names)[1..] == EntryLines(entries, rest);
      LoadEntryLines(entries, rest, got[n := entries[n]]);
      OverrideFirst(got, entries, names);
    }
  }

  lemma {:induction false} SizeInRange(name: string, seen: Seen)
    requires Faithful(name, seen)
    ensures seen.size < U64
  {
  }

  lemma {:induction false} HeadPlain()
    ensures var head := MAGIC + " " + VERSION; '\n' !in head && Fields(head) == [MAGIC, VERSION]
  {
    assert forall i :: 0 <= i < |MAGIC + " " + VERSION| ==> (MAGIC + " " + VERSION)[i] != '\n';
    FileWord();
    TwoFields(MAGIC, VERSION);
  }

  /** Loading undoes saving. */
  lemma {:induction false} LoadUndoesSave(entries: Entries)
    requires GoodEntries(entries)
    ensures Loaded(Some(SavedText(entries))) == Some(entries)
  {
    hide Fields, Lines, Unlines, LoadLines, EntryLines, Sorted, GoodEntries;
    var names, head := Sorted(entries.Keys), MAGIC + " " + VERSION;
    var body := EntryLines(entries, names);
    NamesPlain(entries);
    LinesPlain(entries, names);
    HeadPlain();
    LinesUnlines([head] + body);
    assert ([head] + body)[0] == head && ([head] + body)[1..] == body;
    LoadEntryLines(entries, names, map[]);
    assert map[] + Only(entries, names) == entries;
  }

  lemma {:induction false} NamesPlain(entries: Entries)
    requires GoodEntries(entries)
    ensures forall n :: n in entries ==> '\n' !in n
  {
  }

  // ----- the object -----

  method ParseEntry(line: string) returns (entry: Option<(string, Seen)>)
    ensures entry == EntryOf(line)
  {
    hide Fields, Find;
    var f := Split(line);
    if |f| < 4 || f[0] != "file" {
      return None;
    }
    var size := ParseSize(f[1], MAX_SIZE);
    if size.None? {
      return None;
    }
    var at := FindFirst(line, f[2], 0);
    if at.None? || at.value + |f[2]| + 1 >= |line| {
      return None;
    }
    return Some((line[at.value + |f[2]| + 1..], Seen(size.value, Strtoll(f[2]))));
  }

  method NextLine(text: string, pos: nat, ghost entries: Entries) returns (more: bool, line: string, next: nat)
    requires pos <= |text|
    ensures pos <= next <= |text| && (more ==> next > pos)
    ensures LoadLines(entries, Lines(text[pos..])) == if more then LoadLines(WithLine(entries, line), Lines(text[next..])) else entries
  {
    hide Lines, EntryOf;
    more, line, next := GetLine(text, pos);
    if more {
      assert ([line] + Lines(text[next..]))[1..] == Lines(text[next..]);
    }
  }

  class WatchState {
    var entries: Entries

    constructor ()
      ensures entries == map[]
    {
      entries := map[];
    }

    method LoadFrom(text: Option<string>) returns (ok: bool)
      modifies this
      ensures ok == Loaded(text).Some?
      ensures entries == if ok then Loaded(text).value else map[]
    {
      hide Fields, Lines, EntryOf;
      entries := map[];
      if text.None? {
        return true;
      }
      assert text.value[0..] == text.value;
      var more, line, pos := GetLine(text.value, 0);
      if !more {
        return true;
      }
      var head := Split(line);
      assert ([line] + Lines(text.value[pos..]))[1..] == Lines(text.value[pos..]);
      if |head| != 2 || head[0] != MAGIC || head[1] != VERSION {
        return false;
      }
      assert head == [MAGIC, VERSION];
      more, line, pos := NextLine(text.value, pos, entries);
      while more
        invariant pos <= |text.value|
        invariant more ==> LoadLines(WithLine(entries, line), Lines(text.value[pos..])) == Loaded(text).value
        invariant !more ==> entries == Loaded(text).value
        decreases |text.value| - pos, more
      {
        var entry := ParseEntry(line);
        if entry.Some? {
          entries := entries[entry.value.0 := entry.value.1];
        }
        more, line, pos := NextLine(text.value, pos, entries);
      }
      return true;
    }

    method Save() returns (text: string)
      ensures text == SavedText(entries)
    {
      hide Unlines, EntryLine, Sorted;
      var names := SortNames(entries.Keys);
      ghost var written: seq<string> := [];
      text := "";
      assert text == Unlines(written) by { NoLine(); }
      text, written := PutLine(text, written, MAGIC + " " + VERSION);
      for i := 0 to |names|
        invariant text == Unlines(written)
        invariant written == [MAGIC + " " + VERSION] + EntryLines(entries, names[..i])
      {
        OneMore(entries, names[..i], names[i]);
        assert names[..i + 1] == names[..i] + [names[i]];
        text, written := PutLine(text, written, EntryLine(names[i], entries[names[i]]));
      }
      assert names[..|names|] == names;
    }

    predicate Unchanged(name: string, now: Seen)
      reads this
    {
      name in entries && entries[name] == now
    }

    method Record(name: string, now: Seen)
      modifies this
      ensures entries == old(entries)[name := now] && Unchanged(name, now)
    {
      entries := entries[name := now];
    }

    /** One pass over the folder, each file named once. A safely named file that has
        been stored now is remembered as it was seen; everything else is remembered as
        before, a failed file too, so that the next pass tries it again. */
    method Pass(files: seq<(string, Seen)>, stored: nat -> bool) returns (uploaded: nat, changed: bool)
      requires forall i, j :: 0 <= i < j < |files| ==> files[i].0 != files[j].0
      modifies this
      ensures forall i :: 0 <= i < |files| && Due(old(entries), files[i]) && stored(i) ==> Unchanged(files[i].0, files[i].1)
      ensures forall n :: !StoredNow(old(entries), files, stored, |files|, n) ==> Same(old(entries), entries, n)
      ensures uploaded == CountDue(old(entries), files, stored)
      ensures changed == (entries != old(entries)) && (changed <==> uploaded > 0)
    {
      uploaded, changed := 0, false;
      for i := 0 to |files|
        invariant forall j :: 0 <= j < i && Due(old(entries), files[j]) && stored(j) ==> Unchanged(files[j].0, files[j].1)
        invariant forall n :: !StoredNow(old(entries), files, stored, i, n) ==> Same(old(entries), entries, n)
        invariant uploaded == CountDue(old(entries), files[..i], stored)
        invariant changed == (entries != old(entries)) && (changed <==> uploaded > 0)
      {
        var (name, now) := files[i];
        assert files[..i + 1][..i] == files[..i];
        ghost var before := entries;
        assert Same(old(entries), before, name) by { NotStoredYet(old(entries), files, stored, i); }
        if IsSafeName(name) && !Unchanged(name, now) && stored(i) {
          Record(name, now);
          uploaded, changed := uploaded + 1, true;
        }
        PassStep(old(entries), before, entries, files, stored, i);
      }
      assert files[..|files|] == files;
    }
  }

  /** A safely named file that is new or has changed since it was remembered. */
  predicate Due(entries: Entries, file: (string, Seen)) {
    IsSafeName(file.0) && !(file.0 in entries && entries[file.0] == file.1)
  }

  ghost predicate StoredNow(entries: Entries, files: seq<(string, Seen)>, stored: nat -> bool, k: nat, name: string)
    requires k <= |files|
  {
    exists j :: 0 <= j < k && Due(entries, files[j]) && stored(j) && files[j].0 == name
  }

  lemma {:induction false} NotStoredYet(entries: Entries, files: seq<(string, Seen)>, stored: nat -> bool, k: nat)
    requires k < |files| && forall i, j :: 0 <= i < j < |files| ==> files[i].0 != files[j].0
    ensures !StoredNow(entries, files, stored, k, files[k].0)
  {
  }

  lemma {:induction false} PassStep(entries: Entries, before: Entries, after: Entries, files: seq<(string, Seen)>, stored: nat -> bool, k: nat)
    requires k < |files| && forall n :: !StoredNow(entries, files, stored, k, n) ==> Same(entries, before, n)
    requires after == if Due(entries, files[k]) && stored(k) then before[files[k].0 := files[k].1] else before
    ensures forall n :: !StoredNow(entries, files, stored, k + 1, n) ==> Same(entries, after, n)
  {
    forall n | !StoredNow(entries, files, stored, k + 1, n) ensures Same(entries, after, n) {
      assert !StoredNow(entries, files, stored, k, n);
      assert Same(entries, before, n);
    }
  }

  predicate Same(entries: Entries, entries': Entries, name: string) {
    (name in entries' <==> name in entries) && (name in entries ==> entries'[name] == entries[name])
  }

  function CountDue(entries: Entries, files: seq<(string, Seen)>, stored: nat -> bool): (n: nat) {
    if files == [] then 0
    else
      var last := |files| - 1;
      CountDue(entries, files[..last], stored) + (if Due(entries, files[last]) && stored(last) then 1 else 0)
  }

  // ----- whatever file is loaded -----

  predicate GivesEntry(line: string, name: string) {
    EntryOf(line).Some? && EntryOf(line).value.0 == name
  }

  lemma {:induction false} LoadLinesIff(got: Entries, ls: seq<string>, name: string)
    ensures name in LoadLines(got, ls) <==> name in got || exists i :: 0 <= i < |ls| && GivesEntry(ls[i], name)
    ensures (forall i :: 0 <= i < |ls| ==> !GivesEntry(ls[i], name)) && name in got ==> LoadLines(got, ls)[name] == got[name]
    ensures forall i :: (0 <= i < |ls| && GivesEntry(ls[i], name) && (forall j :: i < j < |ls| ==> !GivesEntry(ls[j], name))) ==>
      LoadLines(got, ls)[name] == EntryOf(ls[i]).value.1
    decreases |ls|
  {
    hide EntryOf, GivesEntry, WithLine;
    if ls != [] {
      var rest := ls[1..];
      LoadLinesIff(WithLine(got, ls[0]), rest, name);
      LineGives(got, ls[0], name);
      assert forall i :: 0 <= i < |rest| ==> rest[i] == ls[i + 1];
      assert forall i :: 1 <= i < |ls| ==> ls[i] == rest[i - 1];
      if i :| 0 <= i < |ls| && GivesEntry(ls[i], name) && !GivesEntry(ls[0], name) {
        assert GivesEntry(rest[i - 1], name);
      }
    }
  }

  lemma {:induction false} LineGives(got: Entries, line: string, name: string)
    ensures GivesEntry(line, name) ==> EntryOf(line).Some?
    ensures var next := WithLine(got, line);
      if GivesEntry(line, name) then name in next && next[name] == EntryOf(line).value.1 else Same(got, next, name)
  {
    hide EntryOf;
  }

  /** Whatever the file says: a wrong heading fails; otherwise the entries are those its
      lines give, the last line of a name counting, and other lines are passed over. */
  lemma {:induction false} LoadIff(text: string, name: string)
    ensures var ls, got := Lines(text), Loaded(Some(text));
      (got.Some? <==> ls == [] || Fields(ls[0]) == ["pcs-watch", "1"])
      && (got.Some? ==>
        (name in got.value <==> exists i :: 1 <= i < |ls| && GivesEntry(ls[i], name))
        && forall i :: (1 <= i < |ls| && GivesEntry(ls[i], name) && (forall j :: i < j < |ls| ==> !GivesEntry(ls[j], name))) ==>
             got.value[name] == EntryOf(ls[i]).value.1)
  {
    hide Fields, Lines, LoadLines, EntryOf, GivesEntry;
    var ls := Lines(text);
    if ls != [] {
      var rest := ls[1..];
      LoadLinesIff(map[], rest, name);
      assert forall i :: 0 <= i < |rest| ==> rest[i] == ls[i + 1];
      assert forall i :: 1 <= i < |ls| ==> ls[i] == rest[i - 1];
    }
  }

  /** An entry line has four fields or more, the first being `file`, and a size. */
  lemma {:induction false} EntryMeans(line: string)
    ensures EntryOf(line).Some? ==>
      |Fields(line)| >= 4 && Fields(line)[0] == "file" && ParsedSize(Fields(line)[1], MAX_SIZE) == Some(EntryOf(line).value.1.size)
      && EntryOf(line).value.0 != "" && EntryOf(line).value.0 == line[|line| - |EntryOf(line).value.0|..]
  {
    hide Fields, ParsedSize;
  }

  lemma {:induction false} OneMore(entries: Entries, names: seq<string>, name: string)
    requires name in entries && forall n :: n in names ==> n in entries
    ensures EntryLines(entries, names + [name]) == EntryLines(entries, names) + [EntryLine(name, entries[name])]
    decreases |names|
  {
    hide EntryLine;
    if names == [] {
      assert [name][1..] == [];
    } else {
      OneMore(entries, names[1..], name);
      assert (names + [name])[1..] == names[1..] + [name];
    }
  }
}

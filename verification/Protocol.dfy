/** The line grammar both ends share: splitting a line into fields, and decimal
    sizes. A `char` stands for one byte of the line. */
module Protocol {
  import opened Wrappers

  const U64: nat := 0x1_0000_0000_0000_0000

  // ----- fields -----

  /** How far the leading word of s reaches. */
  function WordLen(s: string): (n: nat)
    ensures n <= |s|
    ensures forall i :: 0 <= i < n ==> s[i] != ' '
    ensures n < |s| ==> s[n] == ' '
  {
    if s == "" || s[0] == ' ' then 0 else 1 + WordLen(s[1..])
  }

  /** t is the end of s. */
  predicate Suffix(t: string, s: string) {
    |t| <= |s| && t == s[|s| - |t|..]
  }

  lemma {:induction false} SuffixTrans(t: string, u: string, s: string)
    requires Suffix(t, u) && Suffix(u, s)
    ensures Suffix(t, s)
  {
    var a, b := |s| - |u|, |u| - |t|;
    assert s[a..][b..] == s[a + b..];
  }

  lemma {:induction false} DropIsSuffix(s: string, k: nat)
    requires k <= |s|
    ensures Suffix(s[k..], s)
  {
  }

  lemma {:induction false} TrimIsSuffix(s: string)
    ensures Suffix(TrimLeft(s), s)
  {
    if s != "" && s[0] == ' ' {
      TrimIsSuffix(s[1..]);
      DropIsSuffix(s, 1);
      SuffixTrans(TrimLeft(s), s[1..], s);
    }
  }

  function TrimLeft(s: string): (t: string)
    ensures |t| <= |s|
    ensures t != "" ==> t[0] != ' '
  {
    if s != "" && s[0] == ' ' then TrimLeft(s[1..]) else s
  }

  /** The maximal space-free pieces of a line, in order. */
  function Fields(s: string): (f: seq<string>)
    decreases |s|
  {
    var t := TrimLeft(s);
    if t == "" then [] else [t[..WordLen(t)]] + Fields(t[WordLen(t)..])
  }

  /** At most n fields, the last one taking the rest of the line verbatim. */
  function FieldsN(s: string, n: nat): (f: seq<string>)
    decreases |s|
  {
    var t := TrimLeft(s);
    if n == 0 || t == "" then []
    else if n == 1 then [t]
    else [t[..WordLen(t)]] + FieldsN(t[WordLen(t)..], n - 1)
  }

  predicate Word(s: string) {
    s != "" && ' ' !in s
  }

  lemma {:induction false} WordPrefix(w: string, rest: string)
    requires Word(w) && (rest == "" || rest[0] == ' ')
    ensures WordLen(w + rest) == |w| && TrimLeft(w + rest) == w + rest
    ensures Fields(w + rest) == [w] + Fields(rest)
    ensures forall n :: n >= 2 ==> FieldsN(w + rest, n) == [w] + FieldsN(rest, n - 1)
  {
    var s := w + rest;
    assert s[0] == w[0];
    assert forall i :: 0 <= i < |w| ==> s[i] == w[i] && w[i] in w;
    assert rest != "" ==> s[|w|] == ' ';
    assert WordLen(s) == |w|;
    assert s[..|w|] == w && s[|w|..] == rest;
  }

  lemma {:induction false} LeadingSpace(s: string)
    ensures TrimLeft(" " + s) == TrimLeft(s)
    ensures Fields(" " + s) == Fields(s)
    ensures forall n :: FieldsN(" " + s, n) == FieldsN(s, n)
  {
    assert (" " + s)[1..] == s;
  }

  /** A word, one space, and the rest of a line. */
  lemma {:induction false} WordThen(w: string, rest: string)
    requires Word(w)
    ensures Fields(w + " " + rest) == [w] + Fields(rest)
    ensures forall n :: n >= 2 ==> FieldsN(w + " " + rest, n) == [w] + FieldsN(rest, n - 1)
  {
    assert w + " " + rest == w + (" " + rest);
    WordPrefix(w, " " + rest);
    LeadingSpace(rest);
  }

  lemma {:induction false} OneWord(w: string)
    requires Word(w)
    ensures Fields(w) == [w] && forall n :: n >= 1 ==> FieldsN(w, n) == [w]
  {
    assert w + "" == w;
    WordPrefix(w, "");
    assert TrimLeft("") == "";
  }

  function JoinWords(ws: seq<string>): string {
    if ws == [] then "" else if |ws| == 1 then ws[0] else ws[0] + " " + JoinWords(ws[1..])
  }

  /** Splitting inverts joining with single spaces. */
  lemma {:induction false} SplitJoin(ws: seq<string>)
    requires forall i :: 0 <= i < |ws| ==> Word(ws[i])
    ensures Fields(JoinWords(ws)) == ws
  {
    if |ws| == 0 {
      assert TrimLeft("") == "";
    } else if |ws| == 1 {
      OneWord(ws[0]);
    } else {
      SplitJoin(ws[1..]);
      WordThen(ws[0], JoinWords(ws[1..]));
    }
  }

  /** What bounded splitting returns, in terms of full splitting: the first
      n - 1 fields, then the verbatim suffix of the line where field n begins. */
  ghost predicate BoundedSplit(s: string, n: nat, f: seq<string>)
    requires n >= 1
  {
    if n > |Fields(s)| then f == Fields(s)
    else
      |f| == n && f[..n - 1] == Fields(s)[..n - 1]
      && Suffix(f[n - 1], s) && Fields(f[n - 1]) == Fields(s)[n - 1..]
      && f[n - 1] != "" && f[n - 1][0] != ' '
  }

  lemma {:induction false} SplitNLaw(s: string, n: nat)
    requires n >= 1
    ensures BoundedSplit(s, n, FieldsN(s, n))
    decreases |s|
  {
    var t := TrimLeft(s);
    TrimIsSuffix(s);
    if t != "" && n >= 2 {
      var w, rest := t[..WordLen(t)], t[WordLen(t)..];
      SplitNLaw(rest, n - 1);
      DropIsSuffix(t, WordLen(t));
      SuffixTrans(rest, t, s);
      BoundedCons(s, n, w, rest, FieldsN(rest, n - 1));
    } else if t != "" {
      assert TrimLeft(t) == t;
      assert Fields(s) == Fields(t);
    }
  }

  lemma {:induction false} BoundedCons(s: string, n: nat, w: string, rest: string, f: seq<string>)
    requires n >= 2 && Fields(s) == [w] + Fields(rest) && Suffix(rest, s) && BoundedSplit(rest, n - 1, f)
    ensures BoundedSplit(s, n, [w] + f)
  {
    if n <= |Fields(s)| {
      SuffixTrans(f[n - 2], rest, s);
    }
  }

  /** The next field found by scanning from index i. */
  lemma {:induction false} FieldAt(line: string, i: nat, start: nat, end: nat)
    requires i <= start <= end <= |line|
    requires line[start..] == TrimLeft(line[i..]) && end == start + WordLen(line[start..])
    ensures start == |line| ==> Fields(line[i..]) == [] && forall n :: FieldsN(line[i..], n) == []
    ensures start < |line| ==> Fields(line[i..]) == [line[start..end]] + Fields(line[end..])
    ensures start < |line| ==> forall n :: n >= 2 ==> FieldsN(line[i..], n) == [line[start..end]] + FieldsN(line[end..], n - 1)
  {
    var t := line[start..];
    assert t[..WordLen(t)] == line[start..end];
    assert t[WordLen(t)..] == line[end..];
  }

  method Split(line: string) returns (parts: seq<string>)
    ensures parts == Fields(line)
  {
    parts := [];
    var i := 0;
    assert line[0..] == line;
    while i < |line|
      invariant 0 <= i <= |line|
      invariant parts + Fields(line[i..]) == Fields(line)
    {
      var start, end := ScanWord(line, i);
      FieldAt(line, i, start, end);
      if end > start {
        parts := parts + [line[start..end]];
      }
      i := end;
    }
  }

  method SplitN(line: string, limit: nat) returns (parts: seq<string>)
    ensures parts == FieldsN(line, limit)
  {
    parts := [];
    if limit == 0 {
      return;
    }
    var i := 0;
    assert line[0..] == line;
    while i < |line| && |parts| + 1 < limit
      invariant 0 <= i <= |line| && |parts| < limit
      invariant parts + FieldsN(line[i..], limit - |parts|) == FieldsN(line, limit)
    {
      var start, end := ScanWord(line, i);
      FieldAt(line, i, start, end);
      TakeField(parts, line[i..], line[start..], line[end..], line[start..end], limit, line);
      if end > start {
        parts := parts + [line[start..end]];
      }
      i := end;
    }
    var start := SkipSpaces(line, i);
    LastField(line[i..], line[start..], limit - |parts|);
    if start < |line| {
      parts := parts + [line[start..]];
    }
  }

  lemma {:induction false} TakeField(parts: seq<string>, s: string, t: string, rest: string, w: string, limit: nat, line: string)
    requires |parts| + 1 < limit && parts + FieldsN(s, limit - |parts|) == FieldsN(line, limit)
    requires t == "" ==> FieldsN(s, limit - |parts|) == [] && rest == ""
    requires t != "" ==> FieldsN(s, limit - |parts|) == [w] + FieldsN(rest, limit - |parts| - 1)
    ensures t == "" ==> parts + FieldsN(rest, limit - |parts|) == FieldsN(line, limit)
    ensures t != "" ==> parts + [w] + FieldsN(rest, limit - |parts| - 1) == FieldsN(line, limit)
  {
    assert TrimLeft("") == "";
    assert parts + [w] + FieldsN(rest, limit - |parts| - 1) == parts + ([w] + FieldsN(rest, limit - |parts| - 1));
  }

  lemma {:induction false} LastField(s: string, t: string, n: nat)
    requires t == TrimLeft(s) && n >= 1 && (n == 1 || s == "")
    ensures FieldsN(s, n) == if t == "" then [] else [t]
  {
  }

  method SkipSpaces(line: string, from: nat) returns (i: nat)
    requires from <= |line|
    ensures from <= i <= |line| && line[i..] == TrimLeft(line[from..])
  {
    i := from;
    while i < |line| && line[i] == ' '
      invariant from <= i <= |line|
      invariant TrimLeft(line[i..]) == TrimLeft(line[from..])
    {
      assert line[i..][1..] == line[i + 1..];
      i := i + 1;
    }
  }

  /** Skips spaces, then runs to the end of the word that follows. */
  method ScanWord(line: string, from: nat) returns (start: nat, end: nat)
    requires from <= |line|
    ensures from <= start <= end <= |line|
    ensures line[start..] == TrimLeft(line[from..]) && end == start + WordLen(line[start..])
    ensures from < |line| ==> end > from
    ensures end == start ==> start == |line|
  {
    start := SkipSpaces(line, from);
    end := start;
    while end < |line| && line[end] != ' '
      invariant start <= end <= |line|
      invariant WordLen(line[start..]) == end - start + WordLen(line[end..])
    {
      assert line[end..][1..] == line[end + 1..];
      end := end + 1;
    }
  }

  // ----- decimal sizes -----

  predicate Digit(c: char) {
    '0' <= c <= '9'
  }

  function DigitValue(c: char): (d: nat)
    requires Digit(c)
    ensures d < 10
  {
    c as nat - '0' as nat
  }

  predicate Digits(s: string) {
    forall i :: 0 <= i < |s| ==> Digit(s[i])
  }

  function Value(s: string): nat
    requires Digits(s)
  {
    if s == "" then 0 else 10 * Value(s[..|s| - 1]) + DigitValue(s[|s| - 1])
  }

  /** A size: one to twenty digits, at most `limit`. */
  function ParsedSize(s: string, limit: nat): (r: Option<nat>) {
    if 1 <= |s| <= 20 && Digits(s) && Value(s) <= limit then Some(Value(s)) else None
  }

  lemma {:induction false} PrefixValue(s: string, k: nat)
    requires Digits(s) && k <= |s|
    ensures Value(s[..k]) <= Value(s)
    decreases |s| - k
  {
    if k < |s| {
      PrefixValue(s, k + 1);
      assert s[..k + 1][..k] == s[..k];
    } else {
      assert s[..k] == s;
    }
  }

  /** The source's 64-bit loop. The subtraction `limit - digit` wraps around when
      the digit exceeds the limit; the test after the addition catches that. */
  method ParseSize(text: string, limit: nat) returns (r: Option<nat>)
    requires limit < U64
    ensures r == ParsedSize(text, limit)
  {
    if text == "" || |text| > 20 {
      return None;
    }
    var value: nat := 0;
    for i := 0 to |text|
      invariant Digits(text[..i]) && value == Value(text[..i]) && value <= limit
    {
      var c := text[i];
      if c < '0' || c > '9' {
        return None;
      }
      var digit := DigitValue(c);
      assert text[..i + 1][..i] == text[..i];
      assert Digits(text) ==> Value(text[..i + 1]) <= Value(text) by {
        if Digits(text) {
          PrefixValue(text, i + 1);
        }
      }
      var room := if limit >= digit then limit - digit else U64 + limit - digit;
      if value > room / 10 {
        return None;
      }
      assert value * 10 + digit < U64;
      value := value * 10 + digit;
      if value > limit {
        return None;
      }
    }
    assert text[..|text|] == text;
    return Some(value);
  }

  function DigitChar(d: nat): (c: char)
    requires d < 10
    ensures Digit(c) && DigitValue(c) == d
  {
    '0' + d as char
  }

  function ToDecimal(n: nat): (s: string)
    ensures s != "" && Digits(s) && Value(s) == n && Word(s)
  {
    if n < 10 then
      assert [DigitChar(n)][..0] == "";
      [DigitChar(n)]
    else
      var rest := ToDecimal(n / 10);
      DigitAdded(rest, DigitChar(n % 10));
      rest + [DigitChar(n % 10)]
  }

  lemma {:induction false} DigitAdded(text: string, c: char)
    requires Digits(text) && Word(text) && Digit(c)
    ensures Digits(text + [c]) && Word(text + [c]) && Value(text + [c]) == Value(text) * 10 + DigitValue(c)
  {
    assert (text + [c])[..|text|] == text;
  }

  function Pow10(k: nat): nat {
    if k == 0 then 1 else 10 * Pow10(k - 1)
  }

  lemma {:induction false} DecimalLength(n: nat, k: nat)
    requires k >= 1 && n < Pow10(k)
    ensures |ToDecimal(n)| <= k
  {
    if n >= 10 {
      DecimalLength(n / 10, k - 1);
    }
  }

  /** A printed size parses back, whenever the limit admits it. */
  lemma {:induction false} ParsePrinted(n: nat, limit: nat)
    requires n < U64
    ensures ParsedSize(ToDecimal(n), limit) == if n <= limit then Some(n) else None
  {
    assert Pow10(5) == 100000;
    assert Pow10(10) == 10000000000;
    assert Pow10(15) == 1000000000000000;
    assert Pow10(20) == 100000000000000000000;
    DecimalLength(n, 20);
  }
}

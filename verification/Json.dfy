/** The two text functions behind the web page's JSON. A `char` stands for a byte. */
module Json {
  import opened Wrappers
  import opened Text
  import Hex

  const QUOTE: char := '"'
  const BACKSLASH: char := '\\'
  const MAX_LINE_LEN: nat := 4096

  function EscapeChar(c: char): (s: string)
    ensures |s| >= 1
  {
    if c == QUOTE || c == BACKSLASH then [BACKSLASH, c]
    else if c as int == 10 then [BACKSLASH, 'n']
    else if c as int == 13 then [BACKSLASH, 'r']
    else if c as int == 9 then [BACKSLASH, 't']
    else if c as int < 0x20 then [BACKSLASH, 'u', '0', '0', Hex.HexDigit(c as int / 16), Hex.HexDigit(c as int % 16)]
    else [c]
  }

  function Escaped(text: string): string {
    if text == "" then "" else EscapeChar(text[0]) + Escaped(text[1..])
  }

  lemma {:induction false} EscapedAppend(text: string, c: char)
    ensures Escaped(text + [c]) == Escaped(text) + EscapeChar(c)
  {
    hide EscapeChar;
    if text == "" {
      assert [c][1..] == "" && Escaped([c]) == EscapeChar(c) + "";
    } else {
      EscapedAppend(text[1..], c);
      assert (text + [c])[1..] == text[1..] + [c];
      assert EscapeChar(text[0]) + (Escaped(text[1..]) + EscapeChar(c)) == EscapeChar(text[0]) + Escaped(text[1..]) + EscapeChar(c);
    }
  }

  method Escape(text: string) returns (out: string)
    ensures out == Escaped(text)
  {
    hide EscapeChar;
    out := "";
    for i := 0 to |text|
      invariant out == Escaped(text[..i])
    {
      EscapedAppend(text[..i], text[i]);
      assert text[..i + 1] == text[..i] + [text[i]];
      out := out + EscapeChar(text[i]);
    }
    assert text[..|text|] == text;
  }

  // ----- a reader of JSON strings, after section 7 of RFC 8259 -----

  /** One character of a string, and how much text it takes. A \u escape is read
      when its code point is a single byte of UTF-8. */
  function CharAt(s: string): Option<(char, nat)> {
    if s == "" || s[0] == QUOTE || (s[0] as int) < 0x20 then None
    else if s[0] != BACKSLASH then Some((s[0], 1))
    else if |s| < 2 then None
    else if s[1] == QUOTE || s[1] == BACKSLASH || s[1] == '/' then Some((s[1], 2))
    else if s[1] == 'b' then Some((8 as char, 2))
    else if s[1] == 'f' then Some((12 as char, 2))
    else if s[1] == 'n' then Some((10 as char, 2))
    else if s[1] == 'r' then Some((13 as char, 2))
    else if s[1] == 't' then Some((9 as char, 2))
    else if s[1] != 'u' || |s| < 6 then None
    else
      match (Hex.HexValue(s[2]), Hex.HexValue(s[3]), Hex.HexValue(s[4]), Hex.HexValue(s[5]))
      case (Some(a), Some(b), Some(c), Some(d)) =>
        if a == 0 && b == 0 && c < 8 then Some(((16 * c + d) as char, 6)) else None
      case _ => None
  }

  /** A string up to its closing quote, and the text after it. */
  function StringAt(s: string): Option<(string, string)>
    decreases |s|
  {
    if s == "" then None
    else if s[0] == QUOTE then Some(("", s[1..]))
    else match CharAt(s)
      case None => None
      case Some((c, n)) =>
        if n > |s| || n == 0 then None
        else match StringAt(s[n..])
          case None => None
          case Some((value, rest)) => Some(([c] + value, rest))
  }

  lemma {:induction false} CharEscaped(c: char, rest: string)
    ensures CharAt(EscapeChar(c) + rest) == Some((c, |EscapeChar(c)|))
    ensures EscapeChar(c)[0] != QUOTE
  {
    var s := EscapeChar(c) + rest;
    if |EscapeChar(c)| == 6 {
      var v := c as int;
      Hex.DigitValues(v / 16);
      Hex.DigitValues(v % 16);
      assert s[2] == '0' && s[3] == '0' && s[4] == Hex.HexDigit(v / 16) && s[5] == Hex.HexDigit(v % 16);
      assert 16 * (v / 16) + v % 16 == v;
    } else if |EscapeChar(c)| == 2 {
      assert s[0] == BACKSLASH && s[1] == EscapeChar(c)[1];
    } else {
      assert s[0] == c;
    }
  }

  /** Between quotes, every byte string is read back as it was. */
  lemma {:induction false} ReadEscaped(text: string, rest: string)
    ensures StringAt(Escaped(text) + [QUOTE] + rest) == Some((text, rest))
  {
    hide CharAt, EscapeChar;
    var s := Escaped(text) + [QUOTE] + rest;
    if text == "" {
      assert s == [QUOTE] + rest && s[1..] == rest;
    } else {
      var e, tail := EscapeChar(text[0]), Escaped(text[1..]) + [QUOTE] + rest;
      assert s == e + tail && s[|e|..] == tail && s[0] == e[0];
      CharEscaped(text[0], tail);
      ReadEscaped(text[1..], rest);
      assert [text[0]] + text[1..] == text;
    }
  }

  // ----- picking a field out of a request -----

  function Unescape(c: char): char {
    if c == 'n' then 10 as char else if c == 'r' then 13 as char else if c == 't' then 9 as char else c
  }

  /** The value collected from `at` on, after the characters already in `value`. */
  function Collected(body: string, at: nat, value: string): Option<string>
    requires at <= |body|
    decreases |body| - at
  {
    if at == |body| then None
    else if body[at] == QUOTE then Some(value)
    else
      var escape := body[at] == BACKSLASH && at + 1 < |body|;
      var value' := value + [if escape then Unescape(body[at + 1]) else body[at]];
      if |value'| > MAX_LINE_LEN then None else Collected(body, if escape then at + 2 else at + 1, value')
  }

  function Field(body: string, name: string): Option<string> {
    var key := [QUOTE] + name + [QUOTE];
    match Find(body, key, 0)
    case None => None
    case Some(k) =>
      match Find(body, ":", k + |key|)
      case None => None
      case Some(colon) =>
        match Find(body, [QUOTE], colon + 1)
        case None => None
        case Some(quote) => Collected(body, quote + 1, "")
  }

  method JsonField(body: string, name: string) returns (out: Option<string>)
    ensures out == Field(body, name)
  {
    hide Collected, Find, OccursAt;
    var key := [QUOTE] + name + [QUOTE];
    var k := FindFirst(body, key, 0);
    if k.None? {
      return None;
    }
    var colon := FindFirst(body, ":", k.value + |key|);
    if colon.None? {
      return None;
    }
    var quote := FindFirst(body, [QUOTE], colon.value + 1);
    if quote.None? {
      return None;
    }
    assert quote.value + 1 <= |body| by { FoundInside(body, [QUOTE], colon.value + 1); }
    out := CollectValue(body, quote.value + 1);
  }

  method CollectValue(body: string, start: nat) returns (out: Option<string>)
    requires start <= |body|
    ensures out == Collected(body, start, "")
  {
    var at, value := start, "";
    while at < |body| && body[at] != QUOTE
      invariant start <= at <= |body|
      invariant Collected(body, at, value) == Collected(body, start, "")
      decreases |body| - at
    {
      if body[at] == BACKSLASH && at + 1 < |body| {
        at := at + 1;
        value := value + [Unescape(body[at])];
      } else {
        value := value + [body[at]];
      }
      at := at + 1;
      if |value| > MAX_LINE_LEN {
        return None;
      }
    }
    if at >= |body| {
      return None;
    }
    return Some(value);
  }

  predicate ReadableChar(c: char) {
    c as int >= 0x20 || c as int in {9, 10, 13}
  }

  /** Bytes that the short reader gives back as they were. */
  predicate Readable(text: string) {
    |text| <= MAX_LINE_LEN && forall i :: 0 <= i < |text| ==> ReadableChar(text[i])
  }

  /** What the short reader makes of an escaped byte: it takes the four hex digits
      of a \u escape for ordinary text. */
  function ShortChar(c: char): (s: string)
    ensures ReadableChar(c) ==> s == [c]
    ensures !ReadableChar(c) ==> |s| == 5
  {
    if ReadableChar(c) then [c] else EscapeChar(c)[1..]
  }

  function Short(text: string): string {
    if text == "" then "" else ShortChar(text[0]) + Short(text[1..])
  }

  lemma {:induction false} ShortLength(text: string)
    ensures |Short(text)| >= |text|
    ensures Short(text) == text <==> forall i :: 0 <= i < |text| ==> ReadableChar(text[i])
    ensures |Short(text)| == |text| ==> Short(text) == text
  {
    hide ReadableChar;
    if text != "" {
      ShortLength(text[1..]);
      assert text == [text[0]] + text[1..];
      if ReadableChar(text[0]) {
        assert Short(text)[1..] == Short(text[1..]);
        assert (forall i :: 0 <= i < |text| ==> ReadableChar(text[i])) <==> forall i :: 0 <= i < |text[1..]| ==> ReadableChar(text[1..][i]) by {
          assert forall i :: 1 <= i < |text| ==> text[i] == text[1..][i - 1];
        }
      }
    }
  }

  /** Ordinary characters are collected one by one, until there are too many. */
  lemma {:induction false} CollectPlain(body: string, at: nat, value: string, text: string)
    requires OccursAt(body, text, at) && |value| <= MAX_LINE_LEN
    requires forall i :: 0 <= i < |text| ==> text[i] != QUOTE && text[i] != BACKSLASH
    ensures Collected(body, at, value)
      == if |value| + |text| <= MAX_LINE_LEN then Collected(body, at + |text|, value + text) else None
    decreases |text|
  {
    if text == "" {
      assert value + text == value;
    } else {
      assert body[at] == body[at..at + |text|][0];
      if |value| < MAX_LINE_LEN {
        assert body[at + 1..at + |text|] == body[at..at + |text|][1..] == text[1..];
        CollectPlain(body, at + 1, value + [text[0]], text[1..]);
        assert value + [text[0]] + text[1..] == value + text;
      }
    }
  }

  lemma {:induction false} CollectChar(body: string, at: nat, value: string, c: char)
    requires OccursAt(body, EscapeChar(c), at) && |value| <= MAX_LINE_LEN
    ensures Collected(body, at, value)
      == if |value| + |ShortChar(c)| <= MAX_LINE_LEN then Collected(body, at + |EscapeChar(c)|, value + ShortChar(c)) else None
  {
    var e := EscapeChar(c);
    assert body[at] == body[at..at + |e|][0];
    if |e| == 2 {
      assert body[at + 1] == body[at..at + |e|][1];
    } else if |e| == 6 {
      assert body[at + 1] == body[at..at + |e|][1];
      assert body[at + 2..at + 6] == body[at..at + 6][2..] == e[2..];
      if |value| < MAX_LINE_LEN {
        CollectPlain(body, at + 2, value + ['u'], e[2..]);
        assert value + ['u'] + e[2..] == value + ShortChar(c);
      }
    }
  }

  lemma {:induction false} CollectEscaped(body: string, at: nat, value: string, text: string)
    requires OccursAt(body, Escaped(text) + [QUOTE], at) && |value| <= MAX_LINE_LEN
    ensures Collected(body, at, value) == if |value| + |Short(text)| <= MAX_LINE_LEN then Some(value + Short(text)) else None
    decreases |text|
  {
    hide Collected, EscapeChar, ShortChar;
    var s := Escaped(text) + [QUOTE];
    if text == "" {
      assert body[at] == s[0];
      assert value + "" == value;
      AtQuote(body, at, value);
    } else {
      var e, tail := EscapeChar(text[0]), Escaped(text[1..]) + [QUOTE];
      assert s == e + tail;
      assert s[..|e|] == e && s[|e|..] == tail;
      assert body[at..at + |s|][..|e|] == body[at..at + |e|];
      assert body[at..at + |s|][|e|..] == body[at + |e|..at + |s|];
      CollectChar(body, at, value, text[0]);
      if |value| + |ShortChar(text[0])| <= MAX_LINE_LEN {
        CollectEscaped(body, at + |e|, value + ShortChar(text[0]), text[1..]);
        assert value + ShortChar(text[0]) + Short(text[1..]) == value + Short(text);
      }
    }
  }

  /** Escaped text between quotes is read back exactly when it is readable. */
  lemma {:induction false} CollectBack(body: string, at: nat, text: string)
    requires OccursAt(body, Escaped(text) + [QUOTE], at)
    ensures Collected(body, at, "") == Some(text) <==> Readable(text)
  {
    hide Collected, Escaped, OccursAt, Short, ReadableChar;
    CollectEscaped(body, at, "", text);
    ShortLength(text);
    assert "" + Short(text) == Short(text);
  }

  lemma {:induction false} AtQuote(body: string, at: nat, value: string)
    requires at < |body| && body[at] == QUOTE
    ensures Collected(body, at, value) == Some(value)
  {
  }

  /** A quote inside escaped text always follows a backslash. */
  lemma {:induction false} QuotesEscaped(text: string, k: nat)
    requires k < |Escaped(text)| && Escaped(text)[k] == QUOTE
    ensures k > 0 && Escaped(text)[k - 1] == BACKSLASH
  {
    hide EscapeChar;
    var e := EscapeChar(text[0]);
    if k >= |e| {
      QuotesEscaped(text[1..], k - |e|);
    } else {
      assert Escaped(text)[k] == e[k];
      QuoteInChar(text[0], k);
    }
  }

  lemma {:induction false} QuoteInChar(c: char, k: nat)
    requires k < |EscapeChar(c)|
    ensures EscapeChar(c)[k] == QUOTE ==> k > 0 && EscapeChar(c)[k - 1] == BACKSLASH
  {
  }

  function Request(user: string, password: string): string {
    "{\"user\":\"" + Escaped(user) + "\",\"password\":\"" + Escaped(password) + "\"}"
  }

  const OPEN: string := "{\"user\":\""
  const MIDDLE: string := "\",\"password\":\""
  const CLOSE: string := "\"}"

  /** Where the pieces of a request lie. */
  lemma {:induction false} RequestShape(user: string, password: string)
    ensures var body, n := Request(user, password), 9 + |Escaped(user)|;
      |body| >= n + 14 && body[..9] == OPEN && body[9..n] == Escaped(user) && body[n..n + 14] == MIDDLE
      && OccursAt(body, Escaped(user) + [QUOTE], 9) && OccursAt(body, Escaped(password) + [QUOTE], n + 14)
  {
    hide Escaped;
    var n, e, p := 9 + |Escaped(user)|, Escaped(user), Escaped(password);
    assert |OPEN| == 9 && |MIDDLE| == 14;
    assert Request(user, password) == OPEN + e + MIDDLE + p + CLOSE;
    FivePieces(OPEN, e, MIDDLE, p, CLOSE);
  }

  lemma {:induction false} FivePieces(a: string, b: string, c: string, d: string, e: string)
    requires c != "" && e != "" && c[0] == QUOTE && e[0] == QUOTE
    ensures var s, i, j, k := a + b + c + d + e, |a|, |a| + |b|, |a| + |b| + |c|;
      s[..i] == a && s[i..j] == b && s[j..k] == c && OccursAt(s, b + [QUOTE], i) && OccursAt(s, d + [QUOTE], k)
  {
    var s, i, j, k := a + b + c + d + e, |a|, |a| + |b|, |a| + |b| + |c|;
    assert s[i..j + 1] == b + [QUOTE];
    assert s[k..k + |d| + 1] == d + [QUOTE];
  }

  lemma {:induction false} UserRecovered(user: string, password: string)
    ensures Field(Request(user, password), "user") == Some(user) <==> Readable(user)
  {
    hide Request, Escaped, Collected, Find, Readable;
    var body, key := Request(user, password), [QUOTE] + "user" + [QUOTE];
    RequestShape(user, password);
    CharsOf(body, OPEN, 0);
    assert OccursAt(body, key, 1) by {
      assert body[1..7] == OPEN[1..7] == key;
    }
    assert !OccursAt(body, key, 0) by {
      assert body[0..6][0] == '{';
    }
    FindIs(body, key, 0, 1);
    OneChar(body, ':', 7);
    FindIs(body, ":", 7, 7);
    OneChar(body, QUOTE, 8);
    FindIs(body, [QUOTE], 8, 8);
    CollectBack(body, 9, user);
  }

  /** The first place the password key occurs is its own place, or the user value
      ends in it; either way the colon after it is the right one. */
  lemma {:induction false} PasswordKey(user: string, password: string, k: nat)
    requires OccursAt(Request(user, password), [QUOTE] + "password" + [QUOTE], k) && k <= 9 + |Escaped(user)| + 2
    ensures k == 9 + |Escaped(user)| + 2 || k + 9 == 9 + |Escaped(user)|
  {
    hide Request, Escaped;
    var body, n, key := Request(user, password), 9 + |Escaped(user)|, [QUOTE] + "password" + [QUOTE];
    var q := k + 9;
    RequestShape(user, password);
    CharsOf(body, key, k);
    CharsOf(body, MIDDLE, n);
    CharsOf(body, OPEN, 0);
    assert body[0 + 0] == OPEN[0] == '{';
    assert body[k] == QUOTE && body[q - 1] == key[8] == 'd' && body[q] == key[9] == QUOTE;
    if q < n {
      assert q > 9;
      assert body[q] == body[9..n][q - 9] && body[q - 1] == body[9..n][q - 10];
      QuotesEscaped(user, q - 9);
    } else if q > n {
      assert body[q] == MIDDLE[q - n] && body[q - 1] == MIDDLE[q - n - 1];
    }
  }

  lemma {:induction false} PasswordRecovered(user: string, password: string)
    ensures Field(Request(user, password), "password") == Some(password) <==> Readable(password)
  {
    hide Request, Escaped, Collected, Find, Readable;
    var body, n, key := Request(user, password), 9 + |Escaped(user)|, [QUOTE] + "password" + [QUOTE];
    RequestShape(user, password);
    CharsOf(body, MIDDLE, n);
    assert OccursAt(body, key, n + 2) by {
      assert body[n..n + 14][2..12] == body[n + 2..n + 12];
      assert MIDDLE[2..12] == key;
    }
    var k := Find(body, key, 0).value;
    PasswordKey(user, password, k);
    forall i | k + 10 <= i < n + 12 ensures !OccursAt(body, ":", i) {
      OneChar(body, ':', i);
      assert body[i] == MIDDLE[i - n];
    }
    OneChar(body, ':', n + 12);
    FindIs(body, ":", k + 10, n + 12);
    OneChar(body, QUOTE, n + 13);
    FindIs(body, [QUOTE], n + 13, n + 13);
    CollectBack(body, n + 14, password);
  }

  /** Each value of a log-in request comes back exactly when it is at most 4096 bytes
      with no control byte but tab, line feed and carriage return. The user value may
      contain or equal one of the keys. */
  lemma {:induction false} RequestRecovered(user: string, password: string)
    ensures Field(Request(user, password), "user") == Some(user) <==> Readable(user)
    ensures Field(Request(user, password), "password") == Some(password) <==> Readable(password)
  {
    hide Request, Field, Readable;
    UserRecovered(user, password);
    PasswordRecovered(user, password);
  }
}

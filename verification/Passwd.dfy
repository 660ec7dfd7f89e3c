/** Password verifiers: `scheme$iterations$salt$hash`. PBKDF2 is a parameter. */
module Passwd {
  import opened Bytes
  import opened Wrappers
  import opened Protocol
  import opened Manifests
  import Hex

  /** Password, salt, iterations to hash; anything but 32 bytes is a failure. */
  type Stretch = (string, seq<byte>, nat) -> seq<byte>

  const SCHEME: string := "pbkdf2-sha256"
  const SALT_LEN: nat := 16
  const HASH_LEN: nat := 32
  const MAX_ITERATIONS: nat := 100000000
  const PASSWORD_ITERATIONS: nat := 600000

  datatype Verifier = Verifier(iterations: nat, salt: seq<byte>, hash: seq<byte>)

  // ----- fields between '$' -----

  function CellLen(text: string): (n: nat)
    ensures n <= |text| && (n < |text| ==> text[n] == '$')
    ensures forall i :: 0 <= i < n ==> text[i] != '$'
  {
    if text == "" || text[0] == '$' then 0 else 1 + CellLen(text[1..])
  }

  function Cells(text: string): (cs: seq<string>)
    ensures |cs| >= 1
    decreases |text|
  {
    var n := CellLen(text);
    if n == |text| then [text] else [text[..n]] + Cells(text[n + 1..])
  }

  function JoinCells(cs: seq<string>): string
    requires |cs| >= 1
  {
    if |cs| == 1 then cs[0] else cs[0] + "$" + JoinCells(cs[1..])
  }

  lemma {:induction false} FirstCell(c: string, rest: string)
    requires '$' !in c
    ensures Cells(c) == [c] && Cells(c + "$" + rest) == [c] + Cells(rest)
  {
    var text := c + "$" + rest;
    assert text[|c|] == '$' && forall i :: 0 <= i < |c| ==> text[i] == c[i] && c[i] in c;
    assert CellLen(text) == |c| && text[..|c|] == c && text[|c| + 1..] == rest;
    assert forall i :: 0 <= i < |c| ==> c[i] != '$';
    assert CellLen(c) == |c|;
  }

  lemma {:induction false} CellsJoin(cs: seq<string>)
    requires |cs| >= 1 && forall i :: 0 <= i < |cs| ==> '$' !in cs[i]
    ensures Cells(JoinCells(cs)) == cs
  {
    if |cs| == 1 {
      FirstCell(cs[0], "");
    } else {
      CellsJoin(cs[1..]);
      FirstCell(cs[0], JoinCells(cs[1..]));
    }
  }

  /** The next '$' at or after `start`, the end of the text if there is none. */
  method FindSeparator(text: string, start: nat) returns (at: nat)
    requires start <= |text|
    ensures start <= at <= |text| && CellLen(text[start..]) == at - start
  {
    at := start;
    while at < |text| && text[at] != '$'
      invariant start <= at <= |text|
      invariant CellLen(text[start..]) == at - start + CellLen(text[at..])
    {
      assert text[at..][1..] == text[at + 1..];
      at := at + 1;
    }
  }

  method SplitFields(text: string) returns (fields: seq<string>)
    ensures fields == Cells(text)
  {
    hide Cells, CellLen;
    fields := [];
    var start := 0;
    assert text[0..] == text;
    while true
      invariant 0 <= start <= |text|
      invariant fields + Cells(text[start..]) == Cells(text)
      decreases |text| - start
    {
      var at := FindSeparator(text, start);
      CellAt(text, start, at);
      if at == |text| {
        return fields + [text[start..]];
      }
      assert fields + ([text[start..at]] + Cells(text[at + 1..])) == fields + [text[start..at]] + Cells(text[at + 1..]);
      fields := fields + [text[start..at]];
      start := at + 1;
    }
  }

  lemma {:induction false} CellAt(text: string, start: nat, at: nat)
    requires start <= at <= |text| && CellLen(text[start..]) == at - start
    ensures Cells(text[start..]) == if at == |text| then [text[start..]] else [text[start..at]] + Cells(text[at + 1..])
  {
    if at < |text| {
      assert text[start..][..at - start] == text[start..at];
      assert text[start..][at - start + 1..] == text[at + 1..];
    }
  }

  // ----- verifiers -----

  function Parse(verifier: string): (r: Option<Verifier>) {
    var f := Cells(verifier);
    if |f| != 4 || f[0] != SCHEME then None
    else
      match (ParsedSize(f[1], MAX_ITERATIONS), Hex.Parsed(f[2]), Hex.Parsed(f[3]))
      case (Some(n), Some(salt), Some(hash)) =>
        if n == 0 || salt == [] || |hash| != HASH_LEN then None else Some(Verifier(n, salt, hash))
      case _ => None
  }

  function Format(v: Verifier): string {
    SCHEME + "$" + (ToDecimal(v.iterations) + "$" + (Hex.Text(v.salt) + "$" + Hex.Text(v.hash)))
  }

  /** The verifier of a new password, "" when randomness or the hash failed. */
  function Hashed(kdf: Stretch, password: string, iterations: nat, salt: seq<byte>): string {
    var n := if iterations == 0 then PASSWORD_ITERATIONS else iterations;
    var hash := kdf(password, salt, n);
    if |salt| != SALT_LEN || |hash| != HASH_LEN then "" else Format(Verifier(n, salt, hash))
  }

  function Verifies(kdf: Stretch, password: string, verifier: string): bool {
    match Parse(verifier)
    case None => false
    case Some(v) =>
      var candidate := kdf(password, v.salt, v.iterations);
      |candidate| == |v.hash| && Hex.Text(candidate) == Hex.Text(v.hash)
  }

  /** Fit for a field of a line and for a field between '$'. */
  predicate Plain(s: string) {
    ' ' !in s && '\n' !in s && '$' !in s
  }

  lemma {:induction false} HexPlain(data: seq<byte>)
    ensures Plain(Hex.Text(data))
  {
    if data != [] {
      HexPlain(data[1..]);
    }
  }

  lemma {:induction false} DecimalPlain(n: nat)
    ensures Plain(ToDecimal(n))
  {
    var s := ToDecimal(n);
    assert forall i :: 0 <= i < |s| ==> Digit(s[i]);
  }

  lemma {:induction false} JoinFour(a: string, b: string, c: string, d: string)
    ensures JoinCells([a, b, c, d]) == a + "$" + (b + "$" + (c + "$" + d))
  {
    assert [a, b, c, d][1..] == [b, c, d] && [b, c, d][1..] == [c, d] && [c, d][1..] == [d];
    assert JoinCells([c, d]) == c + "$" + d;
    assert JoinCells([b, c, d]) == b + "$" + JoinCells([c, d]);
  }

  /** Parsing undoes formatting. */
  lemma {:induction false} ParseFormat(v: Verifier)
    requires 0 < v.iterations <= MAX_ITERATIONS && v.salt != [] && |v.hash| == HASH_LEN
    ensures Parse(Format(v)) == Some(v)
  {
    hide ToDecimal, ParsedSize, Hex.Text, Hex.Parsed, Cells, JoinCells;
    HexPlain(v.salt);
    HexPlain(v.hash);
    DecimalPlain(v.iterations);
    assert '$' !in SCHEME;
    var cs := [SCHEME, ToDecimal(v.iterations), Hex.Text(v.salt), Hex.Text(v.hash)];
    JoinFour(cs[0], cs[1], cs[2], cs[3]);
    CellsJoin(cs);
    ParsePrinted(v.iterations, MAX_ITERATIONS);
    Hex.ParsedText(v.salt);
    Hex.ParsedText(v.hash);
  }

  /** A verifier is one field of a line. */
  lemma {:induction false} FormatToken(v: Verifier)
    ensures Token(Format(v))
  {
    hide ToDecimal, Hex.Text;
    HexPlain(v.salt);
    HexPlain(v.hash);
    DecimalPlain(v.iterations);
    assert ' ' !in SCHEME && '\n' !in SCHEME;
  }

  /** A stored verifier accepts exactly the passwords that PBKDF2 takes to the same
      hash under the stored salt. */
  lemma {:induction false} VerifiesExactly(kdf: Stretch, password: string, iterations: nat, salt: seq<byte>, attempt: string)
    requires 0 < iterations <= MAX_ITERATIONS && Hashed(kdf, password, iterations, salt) != ""
    ensures Verifies(kdf, attempt, Hashed(kdf, password, iterations, salt))
      <==> kdf(attempt, salt, iterations) == kdf(password, salt, iterations)
    ensures Token(Hashed(kdf, password, iterations, salt))
  {
    hide Parse, Format, Hex.Text, Token;
    var v := Verifier(iterations, salt, kdf(password, salt, iterations));
    ParseFormat(v);
    FormatToken(v);
    if Hex.Text(kdf(attempt, salt, iterations)) == Hex.Text(v.hash) {
      Hex.TextInjective(kdf(attempt, salt, iterations), v.hash);
    }
  }

  /** Whatever text is stored: a password is accepted exactly when the text has the
      four fields, within their bounds, and PBKDF2 takes the password to the hash there
      under the salt and the iterations there. */
  lemma {:induction false} VerifiesIff(kdf: Stretch, password: string, verifier: string)
    ensures Verifies(kdf, password, verifier) <==>
      Parse(verifier).Some? && var v := Parse(verifier).value; kdf(password, v.salt, v.iterations) == v.hash
    ensures Parse(verifier).Some? ==>
      var v := Parse(verifier).value; 1 <= v.iterations <= 100000000 && v.salt != [] && |v.hash| == 32 && Parse(Format(v)) == Some(v)
    ensures Parse(verifier).Some? ==> |Cells(verifier)| == 4 && Cells(verifier)[0] == "pbkdf2-sha256"
  {
    hide Hex.Text, Format, Cells, ParsedSize, Hex.Parsed;
    if Parse(verifier).Some? {
      var v := Parse(verifier).value;
      IterationsWithin(Cells(verifier)[1]);
      ParseFormat(v);
      if Hex.Text(kdf(password, v.salt, v.iterations)) == Hex.Text(v.hash) {
        Hex.TextInjective(kdf(password, v.salt, v.iterations), v.hash);
      }
    }
  }

  lemma {:induction false} IterationsWithin(text: string)
    ensures ParsedSize(text, MAX_ITERATIONS).Some? ==> ParsedSize(text, MAX_ITERATIONS).value <= MAX_ITERATIONS
  {
  }

  // ----- the operations -----

  method ParseVerifier(verifier: string) returns (r: Option<Verifier>)
    ensures r == Parse(verifier)
  {
    hide Cells, ParsedSize, Hex.Parsed;
    var f := SplitFields(verifier);
    if |f| != 4 || f[0] != SCHEME {
      return None;
    }
    var iterations := ParseSize(f[1], MAX_ITERATIONS);
    if iterations.None? || iterations.value == 0 {
      return None;
    }
    var salt := Hex.FromHex(f[2]);
    if salt.None? || salt.value == [] {
      return None;
    }
    var hash := Hex.FromHex(f[3]);
    if hash.None? || |hash.value| != HASH_LEN {
      return None;
    }
    return Some(Verifier(iterations.value, salt.value, hash.value));
  }

  /** `salt` is what the random source gave, too short when it failed. */
  method HashPassword(kdf: Stretch, password: string, iterations: nat, salt: seq<byte>) returns (verifier: string)
    ensures verifier == Hashed(kdf, password, iterations, salt)
  {
    hide Hex.Text, ToDecimal;
    var n := if iterations == 0 then PASSWORD_ITERATIONS else iterations;
    if |salt| != SALT_LEN {
      return "";
    }
    var hash := kdf(password, salt, n);
    if |hash| != HASH_LEN {
      return "";
    }
    var saltText := Hex.ToHex(salt);
    var hashText := Hex.ToHex(hash);
    verifier := SCHEME + "$" + ToDecimal(n) + "$" + saltText + "$" + hashText;
    Regroup(SCHEME, ToDecimal(n), saltText, hashText);
  }

  lemma {:induction false} Regroup(a: string, b: string, c: string, d: string)
    ensures a + "$" + b + "$" + c + "$" + d == a + "$" + (b + "$" + (c + "$" + d))
  {
  }

  method VerifyPassword(kdf: Stretch, password: string, verifier: string) returns (ok: bool)
    ensures ok == Verifies(kdf, password, verifier)
  {
    hide Hex.Text, Parse;
    var parsed := ParseVerifier(verifier);
    if parsed.None? {
      return false;
    }
    var v := parsed.value;
    var candidate := kdf(password, v.salt, v.iterations);
    if |candidate| != |v.hash| {
      return false;
    }
    var a := Hex.ToHex(candidate);
    var b := Hex.ToHex(v.hash);
    return a == b;
  }
}

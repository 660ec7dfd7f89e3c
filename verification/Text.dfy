/** Searching and reading text as the C++ library does. */
module Text {
  import opened Wrappers
  import opened Protocol
  import opened Manifests

  predicate OccursAt(s: string, key: string, at: nat) {
    at + |key| <= |s| && s[at..at + |key|] == key
  }

  /** The first place at or after `from` where the key occurs. */
  function Find(s: string, key: string, from: nat): (at: Option<nat>)
    ensures at.Some? ==> from <= at.value && OccursAt(s, key, at.value)
    ensures at.Some? ==> forall i :: from <= i < at.value ==> !OccursAt(s, key, i)
    ensures at.None? ==> forall i :: from <= i ==> !OccursAt(s, key, i)
    decreases |s| - from
  {
    if from + |key| > |s| then None else if OccursAt(s, key, from) then Some(from) else Find(s, key, from + 1)
  }

  method FindFirst(s: string, key: string, from: nat) returns (at: Option<nat>)
    ensures at == Find(s, key, from)
  {
    var i := from;
    while i + |key| <= |s|
      invariant from <= i
      invariant Find(s, key, from) == Find(s, key, i)
      decreases |s| - i
    {
      if s[i..i + |key|] == key {
        return Some(i);
      }
      i := i + 1;
    }
    return None;
  }

  lemma {:induction false} FoundInside(s: string, key: string, from: nat)
    ensures Find(s, key, from).Some? ==> Find(s, key, from).value + |key| <= |s|
  {
  }

  lemma {:induction false} FindIs(s: string, key: string, from: nat, at: nat)
    requires from <= at && OccursAt(s, key, at) && forall i :: from <= i < at ==> !OccursAt(s, key, i)
    ensures Find(s, key, from) == Some(at)
  {
  }

  lemma {:induction false} CharsOf(s: string, piece: string, at: nat)
    requires at + |piece| <= |s| && s[at..at + |piece|] == piece
    ensures forall i :: 0 <= i < |piece| ==> s[at + i] == piece[i]
  {
    forall i | 0 <= i < |piece| ensures s[at + i] == piece[i] {
      assert s[at..at + |piece|][i] == s[at + i];
    }
  }

  lemma {:induction false} OneChar(s: string, c: char, i: nat)
    ensures OccursAt(s, [c], i) <==> i < |s| && s[i] == c
  {
    if i < |s| {
      assert s[i..i + 1] == [s[i]];
    }
  }

  // ----- signed numbers -----

  const INT64_MIN: int := -0x8000_0000_0000_0000
  const INT64_MAX: int := 0x7FFF_FFFF_FFFF_FFFF

  /** How far the leading digits reach. */
  function DigitRun(s: string): (n: nat)
    ensures n <= |s| && Digits(s[..n]) && (n < |s| ==> !Digit(s[n]))
  {
    if s == "" || !Digit(s[0]) then 0
    else
      var n := 1 + DigitRun(s[1..]);
      assert forall i :: 1 <= i < n ==> s[i] == s[1..][..n - 1][i - 1];
      n
  }

  function TrimBlanks(s: string): (t: string) {
    if s != "" && (s[0] == ' ' || 9 <= s[0] as int <= 13) then TrimBlanks(s[1..]) else s
  }

  function Clamp(v: int): int {
    if v < INT64_MIN then INT64_MIN else if v > INT64_MAX then INT64_MAX else v
  }

  /** `strtoll` in base ten: blanks, a sign, digits, anything; out of range is the
      nearest bound. */
  function Strtoll(text: string): int {
    var s := TrimBlanks(text);
    if s != "" && s[0] == '-' then Clamp(0 - Value(s[1..][..DigitRun(s[1..])]))
    else
      var d := if s != "" && s[0] == '+' then s[1..] else s;
      Clamp(Value(d[..DigitRun(d)]))
  }

  lemma {:induction false} AllDigits(s: string)
    requires Digits(s)
    ensures s[..DigitRun(s)] == s
  {
    assert DigitRun(s) == |s|;
  }

  /** Printed numbers are read back. */
  lemma {:induction false} StrtollPrinted(i: int)
    requires INT64_MIN <= i <= INT64_MAX
    ensures Strtoll(IntText(i)) == i
  {
    hide ToDecimal, Value;
    var d := ToDecimal(if i < 0 then -i else i);
    AllDigits(d);
    assert Digit(d[0]);
    if i < 0 {
      assert IntText(i) == "-" + d && ("-" + d)[1..] == d && ("-" + d)[0] == '-';
    }
  }
}

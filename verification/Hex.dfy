/** Bytes as hexadecimal text. */
module Hex {
  import opened Bytes
  import opened Wrappers

  function HexDigit(d: nat): (c: char)
    requires d < 16
  {
    if d < 10 then '0' + d as char else 'a' + (d - 10) as char
  }

  function HexValue(c: char): (v: Option<nat>)
    ensures v.Some? ==> v.value < 16
  {
    if '0' <= c <= '9' then Some(c as nat - '0' as nat)
    else if 'a' <= c <= 'f' then Some(10 + (c as nat - 'a' as nat))
    else if 'A' <= c <= 'F' then Some(10 + (c as nat - 'A' as nat))
    else None
  }

  /** The text of some bytes: position i holds half of byte i / 2. */
  function Text(data: seq<byte>): (s: string)
    ensures |s| == 2 * |data|
  {
    if data == [] then "" else [HexDigit(data[0] / 16), HexDigit(data[0] % 16)] + Text(data[1..])
  }

  function Pair(hi: Option<nat>, lo: Option<nat>): (b: Option<byte>)
    requires (hi.Some? ==> hi.value < 16) && (lo.Some? ==> lo.value < 16)
  {
    if hi.Some? && lo.Some? then Some(16 * hi.value + lo.value) else None
  }

  /** The bytes a text stands for; upper-case digits are read too. */
  function Parsed(text: string): (r: Option<seq<byte>>)
    ensures r.Some? ==> |text| == 2 * |r.value|
    decreases |text|
  {
    if text == "" then Some([])
    else if |text| == 1 then None
    else
      match (Pair(HexValue(text[0]), HexValue(text[1])), Parsed(text[2..]))
      case (Some(b), Some(rest)) => Some([b] + rest)
      case _ => None
  }

  predicate HexText(text: string) {
    |text| % 2 == 0 && forall i :: 0 <= i < |text| ==> HexValue(text[i]).Some?
  }

  function LowerChar(c: char): char {
    if 'A' <= c <= 'F' then 'a' + (c - 'A') else c
  }

  function Lower(text: string): (t: string) {
    seq(|text|, i requires 0 <= i < |text| => LowerChar(text[i]))
  }

  lemma {:induction false} DigitValues(d: nat)
    requires d < 16
    ensures HexValue(HexDigit(d)) == Some(d)
  {
  }

  /** Reading undoes printing. */
  lemma {:induction false} ParsedText(data: seq<byte>)
    ensures Parsed(Text(data)) == Some(data)
  {
    if data != [] {
      ParsedText(data[1..]);
      DigitValues(data[0] / 16);
      DigitValues(data[0] % 16);
      assert Text(data)[2..] == Text(data[1..]);
      assert [data[0]] + data[1..] == data;
    }
  }

  lemma {:induction false} FirstPair(text: string)
    requires |text| >= 2
    ensures HexText(text) <==> HexValue(text[0]).Some? && HexValue(text[1]).Some? && HexText(text[2..])
    ensures Lower(text) == [LowerChar(text[0]), LowerChar(text[1])] + Lower(text[2..])
  {
    hide HexValue, LowerChar;
    assert forall i :: 0 <= i < |text| - 2 ==> text[2..][i] == text[i + 2];
    assert forall i :: 2 <= i < |text| ==> text[i] == text[2..][i - 2];
  }

  lemma {:induction false} DigitBack(hi: char, lo: char)
    requires HexValue(hi).Some? && HexValue(lo).Some?
    ensures var b := Pair(HexValue(hi), HexValue(lo)).value; HexDigit(b / 16) == LowerChar(hi) && HexDigit(b % 16) == LowerChar(lo)
  {
    var h, l := HexValue(hi).value, HexValue(lo).value;
    assert (16 * h + l) / 16 == h && (16 * h + l) % 16 == l;
  }

  /** A text is read exactly when it is an even number of hex digits, and printing
      what was read gives it back in lower case. */
  lemma {:induction false} TextParsed(text: string)
    ensures Parsed(text).Some? <==> HexText(text)
    ensures Parsed(text).Some? ==> Text(Parsed(text).value) == Lower(text)
    decreases |text|
  {
    hide HexValue, HexDigit, Lower, LowerChar, Pair;
    if text == "" {
      assert Lower("") == "" by { EmptyLower(); }
    } else if |text| >= 2 {
      FirstPair(text);
      TextParsed(text[2..]);
      PairSome(HexValue(text[0]), HexValue(text[1]));
      if Parsed(text).Some? {
        DigitBack(text[0], text[1]);
        assert Parsed(text).value[1..] == Parsed(text[2..]).value;
      }
    }
  }

  lemma {:induction false} EmptyLower()
    ensures Lower("") == ""
  {
  }

  lemma {:induction false} PairSome(hi: Option<nat>, lo: Option<nat>)
    requires (hi.Some? ==> hi.value < 16) && (lo.Some? ==> lo.value < 16)
    ensures Pair(hi, lo).Some? <==> hi.Some? && lo.Some?
  {
  }

  lemma {:induction false} TextInjective(a: seq<byte>, b: seq<byte>)
    requires Text(a) == Text(b)
    ensures a == b
  {
    ParsedText(a);
    ParsedText(b);
  }

  lemma {:induction false} TextAppend(data: seq<byte>, b: byte)
    ensures Text(data + [b]) == Text(data) + [HexDigit(b / 16), HexDigit(b % 16)]
  {
    if data == [] {
      assert [b][1..] == [];
      assert Text([b]) == [HexDigit(b / 16), HexDigit(b % 16)];
    } else {
      TextAppend(data[1..], b);
      assert (data + [b])[1..] == data[1..] + [b];
    }
  }

  lemma {:induction false} ParsedAppend(text: string, hi: char, lo: char)
    requires |text| % 2 == 0
    ensures Parsed(text + [hi, lo]) == match (Parsed(text), Pair(HexValue(hi), HexValue(lo)))
      case (Some(d), Some(b)) => Some(d + [b])
      case _ => None
    decreases |text|
  {
    hide HexValue, Pair;
    var s := text + [hi, lo];
    if text == "" {
      assert s == [hi, lo] && s[2..] == "";
      assert forall b: byte :: [b] + [] == [b] && [] + [b] == [b];
    } else {
      ParsedAppend(text[2..], hi, lo);
      assert s[2..] == text[2..] + [hi, lo];
      assert s[0] == text[0] && s[1] == text[1];
      match (Pair(HexValue(s[0]), HexValue(s[1])), Parsed(text[2..]), Pair(HexValue(hi), HexValue(lo)))
      case (Some(a), Some(d), Some(b)) => assert [a] + (d + [b]) == [a] + d + [b];
      case _ =>
    }
  }

  method ToHex(data: seq<byte>) returns (text: string)
    ensures text == Text(data)
  {
    var out := new char[2 * |data|];
    for i := 0 to |data|
      invariant out[..2 * i] == Text(data[..i])
    {
      ghost var done := out[..2 * i];
      out[2 * i] := HexDigit(data[i] / 16);
      out[2 * i + 1] := HexDigit(data[i] % 16);
      TextAppend(data[..i], data[i]);
      assert data[..i + 1] == data[..i] + [data[i]];
      assert out[..2 * (i + 1)] == done + [out[2 * i], out[2 * i + 1]];
    }
    assert data[..|data|] == data && out[..2 * |data|] == out[..];
    text := out[..];
  }

  lemma {:induction false} OddText(hex: string)
    requires |hex| % 2 != 0
    ensures Parsed(hex) == None
  {
    TextParsed(hex);
  }

  lemma {:induction false} ParsedNothing()
    ensures Parsed("") == Some([])
  {
  }

  lemma {:induction false} BadPair(hex: string, i: nat)
    requires 2 * i + 1 < |hex| && Pair(HexValue(hex[2 * i]), HexValue(hex[2 * i + 1])).None?
    ensures Parsed(hex) == None
  {
    hide HexValue;
    TextParsed(hex);
    PairSome(HexValue(hex[2 * i]), HexValue(hex[2 * i + 1]));
  }

  /** False, and no bytes, on an odd length or a non-hex digit. */
  method FromHex(hex: string) returns (r: Option<seq<byte>>)
    ensures r == Parsed(hex)
  {
    hide Parsed, HexValue, Pair;
    if |hex| % 2 != 0 {
      OddText(hex);
      return None;
    }
    ParsedNothing();
    var out := new byte[|hex| / 2](_ => 0);
    for i := 0 to out.Length
      invariant Parsed(hex[..2 * i]) == Some(out[..i])
    {
      ParsedAppend(hex[..2 * i], hex[2 * i], hex[2 * i + 1]);
      assert hex[..2 * (i + 1)] == hex[..2 * i] + [hex[2 * i], hex[2 * i + 1]];
      var b := Pair(HexValue(hex[2 * i]), HexValue(hex[2 * i + 1]));
      if b.None? {
        BadPair(hex, i);
        return None;
      }
      ghost var done := out[..i];
      out[i] := b.value;
      assert out[..i + 1] == done + [b.value];
    }
    assert hex[..2 * out.Length] == hex && out[..out.Length] == out[..];
    return Some(out[..]);
  }
}

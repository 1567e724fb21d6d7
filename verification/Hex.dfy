/** The hex layer of the JSON-RPC wire: bytesToHex, hexToBytes and hexNibble. */
module Hex {
  import opened Bytes
  import opened Wrappers

  // Go indexes a string by byte: throughout this module one char of a string stands for one byte.
  const HEX_CHARS: string := "0123456789abcdef"

  function HexChar(n: nat): (c: char)
    requires n < 16
    ensures c == HEX_CHARS[n]
  {
    if n < 10 then (n + 48) as char else (n + 87) as char
  }

  predicate IsHexDigit(c: char) {
    '0' <= c <= '9' || 'a' <= c <= 'f' || 'A' <= c <= 'F'
  }

  predicate AllHex(s: string) {
    forall i :: 0 <= i < |s| ==> IsHexDigit(s[i])
  }

  function LowerChar(c: char): char {
    if 'A' <= c <= 'Z' then c + 32 as char else c
  }

  function Lower(s: string): (r: string) {
    seq(|s|, i requires 0 <= i < |s| => LowerChar(s[i]))
  }

  function StripPrefix(s: string): string {
    if |s| >= 2 && s[..2] == "0x" then s[2..] else s
  }

  function HexNibble(c: char): (n: int)
    ensures -1 <= n < 16
    ensures n >= 0 <==> IsHexDigit(c)
  {
    if '0' <= c <= '9' then c as int - 48
    else if 'a' <= c <= 'f' then c as int - 97 + 10
    else if 'A' <= c <= 'F' then c as int - 65 + 10
    else -1
  }

  /** Two lower-case digits per byte, high nibble first. */
  function HexOf(b: seq<byte>): (s: string)
    ensures |s| == 2 * |b|
  {
    seq(2 * |b|, k requires 0 <= k < 2 * |b| => HexChar(if k % 2 == 0 then b[k / 2] / 16 else b[k / 2] % 16))
  }

  /** The byte that digit pair i stands for. */
  function PairValue(t: string, i: nat): int
    requires 2 * i + 1 < |t|
  {
    16 * HexNibble(t[2 * i]) + HexNibble(t[2 * i + 1])
  }

  /** The bytes that pairs of digits stand for. */
  function Pairs(t: string): (b: seq<byte>)
    requires |t| % 2 == 0 && AllHex(t)
    ensures |b| == |t| / 2
  {
    seq(|t| / 2, i requires 0 <= i < |t| / 2 => PairValue(t, i))
  }

  /** The bytes of hex text after its prefix, if it is that. */
  function Unhex(s: string): (r: Option<seq<byte>>) {
    var t := StripPrefix(s);
    if |t| % 2 != 0 || !AllHex(t) then None else Some(Pairs(t))
  }

  method BytesToHex(b: seq<byte>) returns (s: string)
    ensures s == HexOf(b)
  {
    var out := new char[|b| * 2];
    for i := 0 to |b|
      invariant forall k :: 0 <= k < 2 * i ==> out[k] == HexOf(b)[k]
    {
      out[i * 2] := HEX_CHARS[b[i] / 16];
      out[i * 2 + 1] := HEX_CHARS[b[i] % 16];
    }
    s := out[..];
  }

  method HexToBytes(s0: string) returns (r: Option<seq<byte>>)
    ensures r == Unhex(s0)
  {
    var s := s0;
    if |s| >= 2 && s[..2] == "0x" {
      s := s[2..];
    }
    if |s| % 2 != 0 {
      return None;
    }
    var out := new byte[|s| / 2];
    var i := 0;
    while i < |s| / 2
      invariant 0 <= i <= |s| / 2
      invariant forall k :: 0 <= k < 2 * i ==> IsHexDigit(s[k])
      invariant forall j :: 0 <= j < i ==> out[j] == PairValue(s, j)
    {
      var hi := HexNibble(s[i * 2]);
      var lo := HexNibble(s[i * 2 + 1]);
      if hi < 0 || lo < 0 {
        return None;
      }
      out[i] := hi * 16 + lo;
      i := i + 1;
    }
    assert out[..] == Pairs(s);
    r := Some(out[..]);
  }

  /** Decoding fails exactly on odd length or a foreign digit; what it accepts prints back, lower-cased. */
  lemma DecodeThenPrint(s: string)
    ensures Unhex(s).Some? <==> |StripPrefix(s)| % 2 == 0 && AllHex(StripPrefix(s))
    ensures Unhex(s).Some? ==> HexOf(Unhex(s).value) == Lower(StripPrefix(s))
  {
    var t := StripPrefix(s);
    if Unhex(s).Some? {
      var b := Pairs(t);
      forall k | 0 <= k < |t| ensures HexOf(b)[k] == LowerChar(t[k]) {
        var i := k / 2;
        var hi, lo := HexNibble(t[2 * i]), HexNibble(t[2 * i + 1]);
        assert b[i] == PairValue(t, i) && b[i] / 16 == hi && b[i] % 16 == lo;
        HexCharOfNibble(t[k]);
      }
    }
  }

  /** Printing then decoding is the identity, with or without the prefix. */
  lemma PrintThenDecode(b: seq<byte>)
    ensures Unhex("0x" + HexOf(b)) == Some(b)
    ensures Unhex(HexOf(b)) == Some(b)
  {
    var s := HexOf(b);
    PrintedIsHex(b);
    assert ("0x" + s)[2..] == s && ("0x" + s)[..2] == "0x";
    assert StripPrefix(s) == s by {
      assert |s| >= 2 ==> s[..2][1] == s[1] && s[1] != 'x';
    }
  }

  lemma PrintedPair(b: seq<byte>, i: nat)
    requires i < |b|
    ensures var hi, lo := HexOf(b)[2 * i], HexOf(b)[2 * i + 1];
      IsHexDigit(hi) && IsHexDigit(lo) && 16 * HexNibble(hi) + HexNibble(lo) == b[i]
  {
    NibbleOfHexChar(b[i] / 16);
    NibbleOfHexChar(b[i] % 16);
    assert HexOf(b)[2 * i] == HexChar(b[i] / 16) && HexOf(b)[2 * i + 1] == HexChar(b[i] % 16);
  }

  lemma PrintedIsHex(b: seq<byte>)
    ensures AllHex(HexOf(b)) && Pairs(HexOf(b)) == b
  {
    var s := HexOf(b);
    forall k | 0 <= k < |s| ensures IsHexDigit(s[k]) {
      PrintedPair(b, k / 2);
      assert k == 2 * (k / 2) || k == 2 * (k / 2) + 1;
    }
    forall i | 0 <= i < |b| ensures Pairs(s)[i] == b[i] {
      PrintedPair(b, i);
      assert Pairs(s)[i] == PairValue(s, i);
    }
  }

  lemma HexCharOfNibble(c: char)
    requires IsHexDigit(c)
    ensures HexChar(HexNibble(c)) == LowerChar(c)
  {
  }

  /** Digits of either case, and nothing else, with their values. */
  lemma DigitValues(c: char, n: nat)
    requires n < 16
    ensures IsHexDigit(c) <==> c in "0123456789abcdefABCDEF"
    ensures HexNibble("0123456789abcdef"[n]) == n && HexNibble("0123456789ABCDEF"[n]) == n
  {
    var digits := "0123456789abcdefABCDEF";
    if IsHexDigit(c) {
      var v := HexNibble(c);
      assert c == digits[v] || c == digits[v + 6];
    }
  }

  lemma NibbleOfHexChar(n: nat)
    requires n < 16
    ensures IsHexDigit(HexChar(n)) && HexNibble(HexChar(n)) == n
  {
  }

  /** Bytes are all zero exactly if every digit that spells them is. */
  lemma ZeroDigits(t: string)
    requires |t| % 2 == 0 && AllHex(t)
    ensures (forall i :: 0 <= i < |t| / 2 ==> Pairs(t)[i] == 0) <==> forall k :: 0 <= k < |t| ==> t[k] == '0'
  {
    if forall i :: 0 <= i < |t| / 2 ==> Pairs(t)[i] == 0 {
      forall k | 0 <= k < |t| ensures t[k] == '0' {
        assert PairValue(t, k / 2) == Pairs(t)[k / 2] == 0;
      }
    }
    if forall k :: 0 <= k < |t| ==> t[k] == '0' {
      forall i | 0 <= i < |t| / 2 ensures Pairs(t)[i] == 0 {
        assert t[2 * i] == '0' && t[2 * i + 1] == '0';
      }
    }
  }
}

/** The slices of the contract ABI that the client writes and reads by hand. */
module Abi {
  import opened Bytes

  function UintWord(v: nat): Word {
    ToBE(v, 32)
  }

  function AddressWord(a: Address): Word {
    Zeros(12) + a
  }

  function BoolWord(b: bool): Word {
    Zeros(31) + [if b then 1 else 0]
  }

  method PadUint(v: uint64) returns (r: seq<byte>)
    ensures r == UintWord(v)
  {
    Pow256Constants();
    MinimalBEFits(v, 32);
    var b := MinimalBE(v);
    var out := new byte[32](_ => 0);
    forall i | 0 <= i < |b| {
      out[32 - |b| + i] := b[i];
    }
    r := out[..];
    assert r == Zeros(32 - |b|) + b;
  }

  method AddressPadded(a: Address) returns (r: seq<byte>)
    ensures r == AddressWord(a)
  {
    var out := new byte[32](_ => 0);
    forall i | 0 <= i < 20 {
      out[12 + i] := a[i];
    }
    r := out[..];
  }

  method BoolPadded(b: bool) returns (r: seq<byte>)
    ensures r == BoolWord(b)
  {
    var out := new byte[32](_ => 0);
    if b {
      out[31] := 1;
    }
    r := out[..];
  }

  /** As numbers, an address word is its address, and a flag is 1 or 0. */
  lemma WordsAsNumbers(a: Address, b: bool)
    ensures BE(AddressWord(a)) == BE(a)
    ensures BE(BoolWord(b)) == if b then 1 else 0
  {
    LeadingZeros(12, a);
    LeadingZeros(31, [if b then 1 else 0]);
  }

  lemma AddressWordInjective(a: Address, b: Address)
    requires AddressWord(a) == AddressWord(b)
    ensures a == b
  {
    assert a == AddressWord(a)[12..] && b == AddressWord(b)[12..];
  }

  lemma BoolWordInjective(a: bool, b: bool)
    requires BoolWord(a) == BoolWord(b)
    ensures a == b
  {
    assert BoolWord(a)[31] == BoolWord(b)[31];
  }

  // ---------- abi.encode(string) ----------

  /** The least multiple of 32 that is at least n. */
  function RoundUp(n: nat): (p: nat)
    ensures n <= p < n + 32 && p % 32 == 0
  {
    (n + 31) / 32 * 32
  }

  /** Offset word, length word, contents, zero padding to a whole slot. */
  function AbiString(s: seq<byte>): (r: seq<byte>)
    ensures |r| == 64 + RoundUp(|s|)
  {
    UintWord(32) + UintWord(|s|) + s + Zeros(RoundUp(|s|) - |s|)
  }

  method AbiEncodeString(data: seq<byte>) returns (r: seq<byte>)
    requires |data| < TWO_63
    ensures r == AbiString(data)
  {
    var offset := new byte[32](_ => 0);
    offset[31] := 0x20;
    OffsetWord();
    r := offset[..];
    var lenBuf := LengthBytes(|data|);
    r := r + lenBuf;
    var body := PaddedBody(data);
    r := r + body;
    Regroup(UintWord(32), UintWord(|data|), data, Zeros(RoundUp(|data|) - |data|));
  }

  lemma Regroup(a: seq<byte>, b: seq<byte>, c: seq<byte>, d: seq<byte>)
    ensures a + b + (c + d) == a + b + c + d
  {
  }

  /** The shift loop: the low eight bytes of the length, last byte first. */
  method LengthBytes(n: uint64) returns (r: seq<byte>)
    ensures r == UintWord(n)
  {
    var lenBuf := new byte[32](_ => 0);
    for i := 0 to 8
      invariant lenBuf[..] == Zeros(32 - i) + ToBE(n, i)
    {
      LengthStep(n, i);
      lenBuf[31 - i] := n / Pow256(i) % 256;
    }
    NarrowWord(n);
    r := lenBuf[..];
  }

  method PaddedBody(data: seq<byte>) returns (r: seq<byte>)
    ensures r == data + Zeros(RoundUp(|data|) - |data|)
  {
    var padded := (|data| + 31) / 32 * 32;
    var body := new byte[padded](_ => 0);
    forall i | 0 <= i < |data| {
      body[i] := data[i];
    }
    assert body[..] == data + Zeros(padded - |data|);
    r := body[..];
  }

  lemma LengthStep(n: nat, i: nat)
    requires i < 32
    ensures (Zeros(32 - i) + ToBE(n, i))[31 - i := n / Pow256(i) % 256] == Zeros(31 - i) + ToBE(n, i + 1)
  {
    ToBEHead(n, i);
  }

  lemma OffsetWord()
    ensures UintWord(32) == Zeros(31) + [32]
  {
    ToBEOfZero(31);
  }

  /** A 64-bit number only fills the last eight bytes of its word. */
  lemma NarrowWord(n: uint64)
    ensures UintWord(n) == Zeros(24) + ToBE(n, 8)
  {
    Pow256Constants();
    MinimalBEFits(n, 32);
    MinimalBEFits(n, 8);
  }

  lemma {:induction false} ToBEHead(v: nat, n: nat)
    ensures ToBE(v, n + 1) == [v / Pow256(n) % 256] + ToBE(v, n)
  {
    if n > 0 {
      ToBEHead(v / 256, n - 1);
      DivideTwice(v, Pow256(n - 1));
      assert ToBE(v, n + 1) == ToBE(v / 256, n) + [v % 256];
    }
  }

  lemma DivideTwice(v: nat, p: nat)
    requires p > 0
    ensures v / (256 * p) == v / 256 / p
  {
    var a := v / 256;
    var q := a / p;
    var rest := 256 * (a % p) + v % 256;
    assert v == 256 * p * q + rest by {
      assert a == p * q + a % p;
    }
    QuotientUnique(v, 256 * p, q, rest);
  }

  lemma QuotientUnique(v: nat, d: nat, q: nat, rest: nat)
    requires v == d * q + rest && rest < d
    ensures v / d == q
  {
    var k := v / d;
    assert v == d * k + v % d;
    CancelFactor(d, k, q + 1);
    CancelFactor(d, q, k + 1);
  }

  lemma CancelFactor(d: nat, a: nat, b: nat)
    requires d * a < d * b
    ensures a < b
  {
    assert d * (b - a) > 0;
  }

  /** Reads the string back: the length word says how much of what follows is contents. */
  function ReadString(r: seq<byte>): seq<byte>
    requires 64 <= |r| && 64 + BE(WordAt(r, 32)) <= |r|
  {
    r[64..64 + BE(WordAt(r, 32))]
  }

  lemma AbiStringLayout(s: seq<byte>)
    requires |s| < TWO_256
    ensures WordAt(AbiString(s), 0) == UintWord(32)
    ensures BE(WordAt(AbiString(s), 32)) == |s|
    ensures ReadString(AbiString(s)) == s
    ensures forall i :: 64 + |s| <= i < |AbiString(s)| ==> AbiString(s)[i] == 0
  {
    WordRoundTrip(|s|);
    assert WordAt(AbiString(s), 32) == UintWord(|s|);
    assert ReadString(AbiString(s)) == s;
  }

  lemma AbiStringInjective(a: seq<byte>, b: seq<byte>)
    requires |a| < TWO_256 && |b| < TWO_256 && AbiString(a) == AbiString(b)
    ensures a == b
  {
    AbiStringLayout(a);
    AbiStringLayout(b);
  }

  // ---------- address[] ----------

  /** What decodeAddressArray does: returns a list (nil counts as empty), one of its errors, or a runtime panic. */
  datatype Decoded =
    | Addresses(list: seq<Address>)
    | ShortPayload
    | BodyTooShort(entries: nat)
    | Panicked

  function Low64(w: Word): uint64 {
    BE(w) % TWO_64
  }

  function Wrap64(n: nat): uint64 {
    n % TWO_64
  }

  function Slots(out: seq<byte>, at: nat, n: nat): (list: seq<Address>)
    requires at + 32 * n <= |out|
    ensures |list| == n
  {
    seq(n, i requires 0 <= i < n => out[at + 32 * i + 12..at + 32 * i + 32])
  }

  /** decodeAddressArray with its uint64 arithmetic: a sum or product past 2^64 wraps round. */
  function Decode(out: seq<byte>): Decoded {
    if |out| < 64 then Addresses([]) else
      var offset := Low64(WordAt(out, 0));
      var start := Wrap64(offset + 32);
      if |out| < start then ShortPayload
      else if start < offset then Panicked
      else
        var length := Low64(WordAt(out, offset));
        if |out| - start < Wrap64(length * 32) then BodyTooShort(length)
        // make([]Address, length) asks for at least 20 * 2^59 bytes, more than an int counts
        else if length >= TWO_59 then Panicked
        else Addresses(Slots(out, start, length))
  }

  method DecodeAddressArray(out: seq<byte>) returns (r: Decoded)
    requires |out| < TWO_63
    ensures r == Decode(out)
  {
    if |out| < 64 {
      return Addresses([]);
    }
    var offset: nat := Low64(out[0..32]);
    if |out| < Wrap64(offset + 32) {
      return ShortPayload;
    }
    if Wrap64(offset + 32) < offset {
      return Panicked;
    }
    var length: nat := Low64(out[offset..offset + 32]);
    var body := out[offset + 32..];
    if |body| < Wrap64(length * 32) {
      return BodyTooShort(length);
    }
    if length >= TWO_59 {
      return Panicked;
    }
    var res := CopySlots(body, length);
    SlotsOfSuffix(out, offset + 32, length);
    r := Addresses(res);
  }

  /** The loop of decodeAddressArray. */
  method CopySlots(body: seq<byte>, length: nat) returns (r: seq<Address>)
    requires 32 * length <= |body|
    ensures r == Slots(body, 0, length)
  {
    var res := new Address[length](_ => Zeros(20));
    for i := 0 to length
      invariant forall j :: 0 <= j < i ==> res[j] == body[32 * j + 12..32 * j + 32]
    {
      var slot := body[i * 32..(i + 1) * 32];
      SliceOfSlice(body, 32 * i, 32, 12, 32);
      res[i] := slot[12..];
    }
    r := res[..];
  }

  lemma SliceOfSlice(s: seq<byte>, at: nat, n: nat, i: nat, j: nat)
    requires i <= j <= n && at + n <= |s|
    ensures s[at..at + n][i..j] == s[at + i..at + j]
  {
    var t := s[at..at + n];
    forall k | 0 <= k < j - i
      ensures t[i..j][k] == s[at + i..at + j][k]
    {
      assert t[i..j][k] == t[i + k] == s[at + i + k];
    }
    assert t[i..j] == s[at + i..at + j];
  }

  lemma SlotsOfSuffix(out: seq<byte>, at: nat, n: nat)
    requires at + 32 * n <= |out|
    ensures Slots(out[at..], 0, n) == Slots(out, at, n)
  {
    forall i | 0 <= i < n
      ensures Slots(out[at..], 0, n)[i] == Slots(out, at, n)[i]
    {
      SliceOfSlice(out, at, |out| - at, 32 * i + 12, 32 * i + 32);
    }
  }

  /** The decoder against unbounded arithmetic, for every payload a Go slice can hold. */
  lemma DecodeExactly(out: seq<byte>)
    requires |out| < TWO_63
    ensures |out| < 64 ==> Decode(out) == Addresses([])
    ensures |out| >= 64 ==>
      var offset := Low64(WordAt(out, 0));
      && (offset >= TWO_64 - 32 ==> Decode(out) == Panicked)
      && (offset < TWO_64 - 32 ==>
        && (Decode(out) == ShortPayload <==> |out| < offset + 32)
        && (offset + 32 <= |out| ==>
          var length := Low64(WordAt(out, offset));
          var room := |out| - (offset + 32);
          && (Decode(out).Addresses? <==> length < TWO_59 && 32 * length <= room)
          && (Decode(out).Addresses? ==> Decode(out).list == Slots(out, offset + 32, length))
          && (length < TWO_59 ==> (Decode(out) == BodyTooShort(length) <==> room < 32 * length))
          && (Decode(out).Panicked? <==> length >= TWO_59 && (32 * length) % TWO_64 <= room)))
  {
    if |out| >= 64 {
      var offset := Low64(WordAt(out, 0));
      if offset < TWO_64 - 32 {
        assert Wrap64(offset + 32) == offset + 32;
      } else {
        assert Wrap64(offset + 32) == offset + 32 - TWO_64;
      }
    }
  }

  /** A header whose offset is within 32 of 2^64 slips past the length check and panics, whatever follows it. */
  lemma WrappedOffsetPanics(offset: nat, rest: seq<byte>)
    requires TWO_64 - 32 <= offset < TWO_64 && 32 <= |rest| < TWO_63 - 32
    ensures Decode(UintWord(offset) + rest) == Panicked
  {
    var out := UintWord(offset) + rest;
    WordRoundTrip(offset);
    assert WordAt(out, 0) == UintWord(offset);
    DecodeExactly(out);
  }

  /** So does an empty array that claims a length whose byte count is a multiple of 2^64, such as 2^59. */
  lemma WrappedLengthPanics(length: nat)
    requires TWO_59 <= length < TWO_64 && 32 * length % TWO_64 == 0
    ensures Decode(UintWord(32) + UintWord(length)) == Panicked
  {
    WordRoundTrip(32);
    WordRoundTrip(length);
    WrappedLength(UintWord(32), UintWord(length));
  }

  lemma WrappedLength(a: Word, b: Word)
    requires BE(a) == 32 && TWO_59 <= BE(b) < TWO_64 && 32 * BE(b) % TWO_64 == 0
    ensures Decode(a + b) == Panicked
  {
    var out := a + b;
    assert WordAt(out, 0) == a && WordAt(out, 32) == b;
  }

  /** What the ABI itself says about a payload, with 256-bit numbers: it holds these addresses. */
  ghost predicate HoldsArray(out: seq<byte>, list: seq<Address>) {
    && 64 <= |out|
    && var offset := BE(WordAt(out, 0));
    && offset + 32 <= |out|
    && BE(WordAt(out, offset)) == |list|
    && offset + 32 + 32 * |list| <= |out|
    && Slots(out, offset + 32, |list|) == list
  }

  lemma HeldArrayDecodes(out: seq<byte>, list: seq<Address>)
    requires HoldsArray(out, list) && BE(WordAt(out, 0)) < TWO_64 - 32 && |list| < TWO_59
    ensures Decode(out) == Addresses(list)
  {
    var offset := BE(WordAt(out, 0));
    Unwrapped(offset);
    Unwrapped(offset + 32);
    Unwrapped(32 * |list|);
    Unwrapped(|list|);
    assert Low64(WordAt(out, 0)) == offset && Low64(WordAt(out, offset)) == |list|;
  }

  lemma Unwrapped(n: nat)
    requires n < TWO_64
    ensures Wrap64(n) == n
  {
  }

  lemma DecodedArrayIsHeld(out: seq<byte>, list: seq<Address>)
    requires 64 <= |out| < TWO_63 && Decode(out) == Addresses(list)
    requires BE(WordAt(out, 0)) < TWO_64 && BE(WordAt(out, Low64(WordAt(out, 0)))) < TWO_64
    ensures HoldsArray(out, list)
  {
    var offset := BE(WordAt(out, 0));
    assert Low64(WordAt(out, 0)) == offset;
    assert Wrap64(offset + 32) == if offset + 32 < TWO_64 then offset + 32 else offset + 32 - TWO_64;
    var length := BE(WordAt(out, offset));
    assert Low64(WordAt(out, offset)) == length;
    assert Slots(out, offset + 32, length) == list && |list| == length;
  }

  /**
    The decoder returns a list exactly when the ABI says so, except that it drops the high 192 bits of both numbers.
   */
  lemma DecodeMeetsAbi(out: seq<byte>, list: seq<Address>)
    requires |out| < TWO_63
    ensures HoldsArray(out, list) <==>
      && 64 <= |out|
      && Decode(out) == Addresses(list)
      && BE(WordAt(out, 0)) < TWO_64
      && BE(WordAt(out, Low64(WordAt(out, 0)))) < TWO_64
  {
    if HoldsArray(out, list) {
      HeldArrayDecodes(out, list);
    }
    if 64 <= |out| && Decode(out) == Addresses(list)
       && BE(WordAt(out, 0)) < TWO_64 && BE(WordAt(out, Low64(WordAt(out, 0)))) < TWO_64 {
      DecodedArrayIsHeld(out, list);
    }
  }

  /** Each address behind twelve high bytes of its own. */
  function Body(highs: seq<seq<byte>>, list: seq<Address>): (r: seq<byte>)
    requires |highs| == |list| && forall i :: 0 <= i < |highs| ==> |highs[i]| == 12
    ensures |r| == 32 * |list|
  {
    if list == [] then [] else
      Body(highs[..|list| - 1], list[..|list| - 1]) + (highs[|list| - 1] + list[|list| - 1])
  }

  lemma {:induction false} BodySlot(highs: seq<seq<byte>>, list: seq<Address>, i: nat)
    requires |highs| == |list| && forall k :: 0 <= k < |highs| ==> |highs[k]| == 12
    requires i < |list|
    ensures Body(highs, list)[32 * i + 12..32 * i + 32] == list[i]
  {
    var n := |list| - 1;
    var init := Body(highs[..n], list[..n]);
    if i < n {
      BodySlot(highs[..n], list[..n], i);
      assert Body(highs, list)[32 * i + 12..32 * i + 32] == init[32 * i + 12..32 * i + 32];
    } else {
      assert Body(highs, list)[32 * n + 12..32 * n + 32] == list[n];
    }
  }

  /** The standard encoding of one address[] return value. */
  function EncodeArray(list: seq<Address>): seq<byte> {
    UintWord(32) + UintWord(|list|) + Body(seq(|list|, _ => Zeros(12)), list)
  }

  lemma Layout(a: Word, gap: seq<byte>, b: Word, body: seq<byte>, tail: seq<byte>)
    ensures var out := a + gap + b + body + tail;
      var at := 64 + |gap|;
      && WordAt(out, 0) == a
      && WordAt(out, at - 32) == b
      && out[at..at + |body|] == body
  {
  }

  /** The decoder inverts every encoding, whatever fills the gap, the high bytes of the slots and the tail. */
  lemma DecodeInvertsEncoding(gap: seq<byte>, highs: seq<seq<byte>>, list: seq<Address>, tail: seq<byte>)
    requires |highs| == |list| < TWO_59 && forall k :: 0 <= k < |highs| ==> |highs[k]| == 12
    requires |gap| + 32 < TWO_64 - 32
    ensures Decode(UintWord(32 + |gap|) + gap + UintWord(|list|) + Body(highs, list) + tail) == Addresses(list)
  {
    EncodingHoldsArray(UintWord(32 + |gap|), gap, UintWord(|list|), highs, list, tail);
  }

  lemma EncodingHoldsArray(a: Word, gap: seq<byte>, b: Word, highs: seq<seq<byte>>, list: seq<Address>, tail: seq<byte>)
    requires |highs| == |list| < TWO_59 && forall k :: 0 <= k < |highs| ==> |highs[k]| == 12
    requires a == UintWord(32 + |gap|) && b == UintWord(|list|) && |gap| + 32 < TWO_64 - 32
    ensures Decode(a + gap + b + Body(highs, list) + tail) == Addresses(list)
  {
    var out := a + gap + b + Body(highs, list) + tail;
    WordRoundTrip(32 + |gap|);
    WordRoundTrip(|list|);
    Layout(a, gap, b, Body(highs, list), tail);
    SlotsOfBody(out, 64 + |gap|, highs, list);
    HeldArrayDecodes(out, list);
  }

  lemma SlotsOfBody(out: seq<byte>, at: nat, highs: seq<seq<byte>>, list: seq<Address>)
    requires |highs| == |list| && forall k :: 0 <= k < |highs| ==> |highs[k]| == 12
    requires at + 32 * |list| <= |out| && out[at..at + 32 * |list|] == Body(highs, list)
    ensures Slots(out, at, |list|) == list
  {
    forall i | 0 <= i < |list|
      ensures Slots(out, at, |list|)[i] == list[i]
    {
      BodySlot(highs, list, i);
      SliceOfSlice(out, at, 32 * |list|, 32 * i + 12, 32 * i + 32);
    }
  }

  lemma DecodeEncodeArray(list: seq<Address>)
    requires |list| < TWO_59
    ensures Decode(EncodeArray(list)) == Addresses(list)
  {
    var highs := seq(|list|, _ => Zeros(12));
    var a: seq<byte>, b: seq<byte> := UintWord(32), UintWord(|list|);
    EncodingHoldsArray(a, [], b, highs, list, []);
    assert a + [] + b + Body(highs, list) + [] == a + b + Body(highs, list);
  }

  /** Decoding is idempotent: re-encoding what was decoded and decoding again changes nothing. */
  lemma DecodeEncodeDecode(out: seq<byte>)
    requires Decode(out).Addresses?
    ensures Decode(EncodeArray(Decode(out).list)) == Decode(out)
  {
    DecodeEncodeArray(Decode(out).list);
  }
}

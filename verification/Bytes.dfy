/** Byte strings, and the big-endian numbers they stand for (Go's big.Int SetBytes and Bytes). */
module Bytes {

  type byte = b: int | 0 <= b < 256

  /** A 32-byte slot of the ABI; hashes have this size too. */
  type Word = w: seq<byte> | |w| == 32 witness Zeros(32)

  type Address = a: seq<byte> | |a| == 20 witness Zeros(20)

  const TWO_59 := 0x800_0000_0000_0000
  const TWO_63 := 0x8000_0000_0000_0000
  const TWO_64 := 0x1_0000_0000_0000_0000
  const TWO_255 := 0x8000_0000_0000_0000_0000_0000_0000_0000_0000_0000_0000_0000_0000_0000_0000_0000
  const TWO_256 := 0x1_0000_0000_0000_0000_0000_0000_0000_0000_0000_0000_0000_0000_0000_0000_0000_0000

  type uint64 = n: int | 0 <= n < 0x1_0000_0000_0000_0000

  function Zeros(n: nat): (z: seq<byte>)
    ensures |z| == n && forall i :: 0 <= i < n ==> z[i] == 0
  {
    seq(n, _ => 0)
  }

  function Pow256(n: nat): (p: nat)
    ensures p > 0
  {
    if n == 0 then 1 else 256 * Pow256(n - 1)
  }

  /** The unsigned number a byte string spells, most significant byte first. */
  function BE(s: seq<byte>): nat {
    if s == [] then 0 else 256 * BE(s[..|s| - 1]) + s[|s| - 1]
  }

  /** The n low-order bytes of v, most significant first. */
  function ToBE(v: nat, n: nat): (s: seq<byte>)
    ensures |s| == n
  {
    if n == 0 then [] else ToBE(v / 256, n - 1) + [v % 256]
  }

  /** Without leading zeros, as big.Int's Bytes returns it. */
  function MinimalBE(v: nat): seq<byte> {
    if v == 0 then [] else MinimalBE(v / 256) + [v % 256]
  }

  /** Slot k of a string of 32-byte slots. */
  function WordAt(s: seq<byte>, at: nat): Word
    requires at + 32 <= |s|
  {
    s[at..at + 32]
  }

  lemma {:induction false} BEBound(s: seq<byte>)
    ensures BE(s) < Pow256(|s|)
  {
    if s != [] {
      BEBound(s[..|s| - 1]);
    }
  }

  lemma {:induction false} BEOfToBE(v: nat, n: nat)
    requires v < Pow256(n)
    ensures BE(ToBE(v, n)) == v
  {
    if n > 0 {
      BEOfToBE(v / 256, n - 1);
      assert ToBE(v, n)[..n - 1] == ToBE(v / 256, n - 1);
    }
  }

  lemma {:induction false} ToBEOfBE(s: seq<byte>)
    ensures ToBE(BE(s), |s|) == s
  {
    if s != [] {
      var init := s[..|s| - 1];
      ToBEOfBE(init);
      assert BE(s) / 256 == BE(init) && BE(s) % 256 == s[|s| - 1];
      assert s == init + [s[|s| - 1]];
    }
  }

  lemma {:induction false} MinimalBEFits(v: nat, n: nat)
    requires v < Pow256(n)
    ensures |MinimalBE(v)| <= n
    ensures Zeros(n - |MinimalBE(v)|) + MinimalBE(v) == ToBE(v, n)
  {
    if v == 0 {
      ToBEOfZero(n);
    } else {
      MinimalBEFits(v / 256, n - 1);
      assert Zeros(n - |MinimalBE(v)|) + MinimalBE(v)
          == (Zeros(n - 1 - |MinimalBE(v / 256)|) + MinimalBE(v / 256)) + [v % 256];
    }
  }

  lemma {:induction false} ToBEOfZero(n: nat)
    ensures ToBE(0, n) == Zeros(n)
  {
    if n > 0 {
      ToBEOfZero(n - 1);
    }
  }

  lemma Pow256Constants()
    ensures Pow256(8) == TWO_64
    ensures Pow256(32) == TWO_256
  {
    assert Pow256(4) == 0x1_0000_0000;
    assert Pow256(8) == TWO_64;
    assert Pow256(12) == 0x1_0000_0000 * TWO_64;
    assert Pow256(16) == TWO_64 * TWO_64;
    assert Pow256(24) == TWO_64 * TWO_64 * TWO_64;
    assert Pow256(28) == 0x1_0000_0000 * TWO_64 * TWO_64 * TWO_64;
  }

  /** A number below 2^256 survives being written into a word. */
  lemma WordRoundTrip(v: nat)
    requires v < TWO_256
    ensures BE(ToBE(v, 32)) == v
  {
    Pow256Constants();
    BEOfToBE(v, 32);
  }

  lemma WordBound(w: Word)
    ensures BE(w) < TWO_256
  {
    Pow256Constants();
    BEBound(w);
  }

  /** Leading zeros do not change the number. */
  lemma {:induction false} LeadingZeros(n: nat, s: seq<byte>)
    ensures BE(Zeros(n) + s) == BE(s)
    decreases |s|
  {
    var t := Zeros(n) + s;
    if s == [] {
      SpellsZero(t);
    } else {
      LeadingZeros(n, s[..|s| - 1]);
      assert t[..|t| - 1] == Zeros(n) + s[..|s| - 1];
    }
  }

  /** Only zeros spell zero. */
  lemma {:induction false} SpellsZero(s: seq<byte>)
    ensures BE(s) == 0 <==> forall i :: 0 <= i < |s| ==> s[i] == 0
  {
    if s != [] {
      SpellsZero(s[..|s| - 1]);
    }
  }
}

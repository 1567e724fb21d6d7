/** The read side of the chain client: calldata out, hex back in, one getter per contract call. */
module Client {
  import opened Bytes
  import opened Wrappers
  import opened Hex
  import opened Abi

  /** eth_call at the latest block, for the duration of one run: target and hex calldata to hex result or RPC error. */
  type Node = (Address, string) -> Result<string>

  type Selector = s: seq<byte> | |s| == 4 witness Zeros(4)

  /** The first four hash bytes of each function signature, computed once at start-up. */
  datatype Selectors = Selectors(
    getUint: Selector,
    getInt: Selector,
    getBool: Selector,
    getAddressCount: Selector,
    getBytes32Count: Selector,
    getRoleMemberCount: Selector,
    getRoleMembers: Selector,
    getMinDelay: Selector,
    balanceOf: Selector,
    latestRoundData: Selector)

  /** A client: the selectors it sends and the node it talks to; neither changes after construction. */
  datatype Chain = Chain(sel: Selectors, node: Node)

  // ---------- what each read returns ----------

  /** The bytes an eth_call returns; hex that does not decode reads as no bytes at all. */
  function EthCall(c: Chain, to: Address, data: seq<byte>): Result<seq<byte>> {
    match c.node(to, "0x" + HexOf(data))
    case Err(e) => Err(e)
    case Ok(hex) => Ok(match Unhex(hex) case None => [] case Some(b) => b)
  }

  function KeyedCall(c: Chain, to: Address, selector: Selector, key: Word): Result<seq<byte>> {
    EthCall(c, to, selector + key)
  }

  function MapOk<T, U>(r: Result<T>, f: T -> U): Result<U> {
    match r case Err(e) => Err(e) case Ok(v) => Ok(f(v))
  }

  /** The sign is read off bit 255, whatever is above it. */
  function Signed(v: nat): int {
    if Bit255(v) then v - TWO_256 else v
  }

  predicate Bit255(v: nat) {
    v / TWO_255 % 2 == 1
  }

  function SignedBE(out: seq<byte>): int {
    Signed(BE(out))
  }

  function Low64BE(out: seq<byte>): uint64 {
    BE(out) % TWO_64
  }

  function Truth(out: seq<byte>): bool {
    out != [] && out[|out| - 1] != 0
  }

  function UintAt(c: Chain, dataStore: Address, key: Word): Result<nat> {
    MapOk(KeyedCall(c, dataStore, c.sel.getUint, key), BE)
  }

  function IntAt(c: Chain, dataStore: Address, key: Word): Result<int> {
    MapOk(KeyedCall(c, dataStore, c.sel.getInt, key), SignedBE)
  }

  function BoolAt(c: Chain, dataStore: Address, key: Word): Result<bool> {
    MapOk(KeyedCall(c, dataStore, c.sel.getBool, key), Truth)
  }

  function CountAt(c: Chain, to: Address, selector: Selector, key: Word): Result<uint64> {
    MapOk(KeyedCall(c, to, selector, key), Low64BE)
  }

  function MembersCalldata(sel: Selectors, role: Word, start: uint64, end: uint64): seq<byte> {
    sel.getRoleMembers + role + UintWord(start) + UintWord(end)
  }

  function MembersAt(c: Chain, roleStore: Address, role: Word, start: uint64, end: uint64): Result<Decoded> {
    MapOk(EthCall(c, roleStore, MembersCalldata(c.sel, role, start, end)), Decode)
  }

  function BalanceAt(c: Chain, token: Address, holder: Address): Result<nat> {
    MapOk(KeyedCall(c, token, c.sel.balanceOf, AddressWord(holder)), BE)
  }

  function MinDelayAt(c: Chain, timelock: Address): Result<uint64> {
    MapOk(EthCall(c, timelock, c.sel.getMinDelay), Low64BE)
  }

  const SHORT_RESPONSE := "chainlink latestRoundData short response"

  /** The low 64 bits of the fourth slot of a round tuple. */
  function RoundUpdatedAt(reply: Result<seq<byte>>): Result<uint64> {
    match reply
    case Err(e) => Err(e)
    case Ok(out) => if |out| < 128 then Err(SHORT_RESPONSE) else Ok(Low64BE(out[96..128]))
  }

  function UpdatedAt(c: Chain, feed: Address): Result<uint64> {
    RoundUpdatedAt(EthCall(c, feed, c.sel.latestRoundData))
  }

  // ---------- the getters ----------

  method Call(c: Chain, to: Address, data: seq<byte>) returns (r: Result<seq<byte>>)
    ensures r == EthCall(c, to, data)
  {
    var digits := BytesToHex(data);
    var reply := c.node(to, "0x" + digits);
    if reply.Err? {
      return Err(reply.error);
    }
    var decoded := HexToBytes(reply.value);
    r := Ok(match decoded case None => [] case Some(b) => b);
  }

  method GetUint(c: Chain, dataStore: Address, key: Word) returns (r: Result<nat>)
    ensures r == UintAt(c, dataStore, key)
  {
    var data: seq<byte> := c.sel.getUint;
    data := data + key;
    var out := Call(c, dataStore, data);
    if out.Err? {
      return Err(out.error);
    }
    r := Ok(BE(out.value));
  }

  method GetInt(c: Chain, dataStore: Address, key: Word) returns (r: Result<int>)
    ensures r == IntAt(c, dataStore, key)
  {
    var data: seq<byte> := c.sel.getInt;
    data := data + key;
    var out := Call(c, dataStore, data);
    if out.Err? {
      return Err(out.error);
    }
    var magnitude := BE(out.value);
    var v: int := magnitude;
    if Bit255(magnitude) {
      v := v - TWO_256;
    }
    assert v == SignedBE(out.value);
    r := Ok(v);
  }

  method GetBool(c: Chain, dataStore: Address, key: Word) returns (r: Result<bool>)
    ensures r == BoolAt(c, dataStore, key)
  {
    var data: seq<byte> := c.sel.getBool;
    data := data + key;
    var out := Call(c, dataStore, data);
    if out.Err? {
      return Err(out.error);
    }
    if |out.value| == 0 {
      return Ok(false);
    }
    r := Ok(out.value[|out.value| - 1] != 0);
  }

  /** GetBytes32Count, GetAddressCount and GetRoleMemberCount differ only in the selector they send. */
  method GetCount(c: Chain, to: Address, selector: Selector, key: Word) returns (r: Result<uint64>)
    ensures r == CountAt(c, to, selector, key)
  {
    var data: seq<byte> := selector;
    data := data + key;
    var out := Call(c, to, data);
    if out.Err? {
      return Err(out.error);
    }
    r := Ok(Low64BE(out.value));
  }

  method GetRoleMembers(c: Chain, roleStore: Address, role: Word, start: uint64, end: uint64)
    returns (r: Result<Decoded>)
    ensures r == MembersAt(c, roleStore, role, start, end)
  {
    var data: seq<byte> := c.sel.getRoleMembers;
    data := data + role;
    var first := PadUint(start);
    data := data + first;
    var last := PadUint(end);
    data := data + last;
    var out := Call(c, roleStore, data);
    if out.Err? {
      return Err(out.error);
    }
    r := Ok(Decode(out.value));
  }

  method BalanceOfERC20(c: Chain, token: Address, holder: Address) returns (r: Result<nat>)
    ensures r == BalanceAt(c, token, holder)
  {
    var data: seq<byte> := c.sel.balanceOf;
    var padded := AddressPadded(holder);
    data := data + padded;
    var out := Call(c, token, data);
    if out.Err? {
      return Err(out.error);
    }
    r := Ok(BE(out.value));
  }

  method GetMinDelay(c: Chain, timelock: Address) returns (r: Result<uint64>)
    ensures r == MinDelayAt(c, timelock)
  {
    var out := Call(c, timelock, c.sel.getMinDelay);
    if out.Err? {
      return Err(out.error);
    }
    r := Ok(Low64BE(out.value));
  }

  method ChainlinkLatestUpdatedAt(c: Chain, feed: Address) returns (r: Result<uint64>)
    ensures r == UpdatedAt(c, feed)
  {
    var out := Call(c, feed, c.sel.latestRoundData);
    if out.Err? {
      return Err(out.error);
    }
    if |out.value| < 128 {
      return Err(SHORT_RESPONSE);
    }
    r := Ok(Low64BE(out.value[96..128]));
  }

  // ---------- two's complement ----------

  /** The residue of x modulo 2^256. */
  function Unsigned(x: int): nat
    requires -TWO_255 <= x < TWO_255
  {
    if x < 0 then x + TWO_256 else x
  }

  function TwosComplement(x: int): Word
    requires -TWO_255 <= x < TWO_255
  {
    UintWord(Unsigned(x))
  }

  /** Congruent for a reply of any length; in the int256 range exactly when the reply is an uint256. */
  lemma SignedIsCongruent(v: nat)
    ensures (v - Signed(v)) % TWO_256 == 0
    ensures -TWO_255 <= Signed(v) < TWO_255 <==> v < TWO_256
  {
  }

  /** What is taken off is decided by the low 256 bits alone: 2^256 if they are at least 2^255, else nothing. */
  lemma SignIsLow(v: nat)
    ensures v - Signed(v) == if v % TWO_256 >= TWO_255 then TWO_256 else 0
  {
    assert v / TWO_255 == 2 * (v / TWO_256) + v % TWO_256 / TWO_255;
  }

  /** A flag is the low byte of the reply's number. */
  lemma TruthIsLowByte(out: seq<byte>)
    ensures Truth(out) <==> BE(out) % 256 != 0
  {
    if out != [] {
      assert BE(out) == 256 * BE(out[..|out| - 1]) + out[|out| - 1];
    }
  }

  lemma SignedUnsigned(x: int)
    requires -TWO_255 <= x < TWO_255
    ensures Unsigned(x) < TWO_256 && Signed(Unsigned(x)) == x
  {
  }

  lemma UnsignedSigned(v: nat)
    requires v < TWO_256
    ensures -TWO_255 <= Signed(v) < TWO_255 && Unsigned(Signed(v)) == v
  {
  }

  /** Signed decoding is a bijection between words and the int256 range; its inverse is two's complement. */
  lemma SignedWordBijection(w: Word, x: int)
    requires -TWO_255 <= x < TWO_255
    ensures -TWO_255 <= Signed(BE(w)) < TWO_255
    ensures TwosComplement(Signed(BE(w))) == w
    ensures Signed(BE(TwosComplement(x))) == x
  {
    WordBound(w);
    UnsignedSigned(BE(w));
    ToBEOfBE(w);
    SignedUnsigned(x);
    WordRoundTrip(Unsigned(x));
  }
}

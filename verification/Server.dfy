/**
  A reference node: it holds the contracts' contents directly and answers eth_call by taking the calldata apart.
  The lemmas say that a read through hex and ABI returns what the store holds.
 */
module Server {
  import opened Bytes
  import opened Wrappers
  import opened Hex
  import opened Abi
  import opened Client

  type uint256 = n: nat | n < 0x1_0000_0000_0000_0000_0000_0000_0000_0000_0000_0000_0000_0000_0000_0000_0000_0000
  type int256 = x: int |
      -0x8000_0000_0000_0000_0000_0000_0000_0000_0000_0000_0000_0000_0000_0000_0000_0000 <= x
      < 0x8000_0000_0000_0000_0000_0000_0000_0000_0000_0000_0000_0000_0000_0000_0000_0000

  datatype Contract =
    | DataStore(uints: map<Word, uint256>, ints: map<Word, int256>, bools: map<Word, bool>,
                addressCounts: map<Word, uint256>, bytes32Counts: map<Word, uint256>)
    | RoleStore(members: map<Word, seq<Address>>)
    | Token(balances: map<Address, uint256>)
    | Timelock(minDelay: uint256)
    | Feed(roundId: uint256, answer: int256, startedAt: uint256, updatedAt: uint256, answeredInRound: uint256)

  type World = map<Address, Contract>

  /** A storage mapping reads as zero where nothing was written. */
  function Stored<K, V>(m: map<K, V>, k: K, zero: V): V {
    if k in m then m[k] else zero
  }

  function Lesser(a: nat, b: nat): nat {
    if a < b then a else b
  }

  const REVERTED := "execution reverted"

  function Revert(): Result<seq<byte>> {
    Err(REVERTED)
  }

  function AnswerDataStore(sel: Selectors, d: Contract, selector: Selector, args: seq<byte>): Result<seq<byte>>
    requires d.DataStore?
  {
    if |args| < 32 then Revert() else
      var key := WordAt(args, 0);
      if selector == sel.getUint then Ok(UintWord(Stored(d.uints, key, 0)))
      else if selector == sel.getInt then Ok(TwosComplement(Stored(d.ints, key, 0)))
      else if selector == sel.getBool then Ok(BoolWord(Stored(d.bools, key, false)))
      else if selector == sel.getAddressCount then Ok(UintWord(Stored(d.addressCounts, key, 0)))
      else if selector == sel.getBytes32Count then Ok(UintWord(Stored(d.bytes32Counts, key, 0)))
      else Revert()
  }

  /** getRoleMembers(role, start, end) cuts end down to the member count and reverts when start is beyond it. */
  function AnswerRoleStore(sel: Selectors, d: Contract, selector: Selector, args: seq<byte>): Result<seq<byte>>
    requires d.RoleStore?
  {
    if |args| < 32 then Revert() else
      var list := Stored(d.members, WordAt(args, 0), []);
      if selector == sel.getRoleMemberCount then Ok(UintWord(|list|))
      else if selector == sel.getRoleMembers && |args| >= 96 then
        var start := BE(WordAt(args, 32));
        var end := Lesser(BE(WordAt(args, 64)), |list|);
        if start <= end then Ok(EncodeArray(list[start..end])) else Revert()
      else Revert()
  }

  function RoundTuple(d: Contract): seq<byte>
    requires d.Feed?
  {
    UintWord(d.roundId) + TwosComplement(d.answer) + UintWord(d.startedAt)
    + UintWord(d.updatedAt) + UintWord(d.answeredInRound)
  }

  function Answer(sel: Selectors, d: Contract, selector: Selector, args: seq<byte>): Result<seq<byte>> {
    match d
    case DataStore(_, _, _, _, _) => AnswerDataStore(sel, d, selector, args)
    case RoleStore(_) => AnswerRoleStore(sel, d, selector, args)
    case Token(balances) =>
      if selector == sel.balanceOf && |args| >= 32 && args[..12] == Zeros(12)
      then Ok(UintWord(Stored(balances, args[12..32], 0)))
      else Revert()
    case Timelock(minDelay) =>
      if selector == sel.getMinDelay then Ok(UintWord(minDelay)) else Revert()
    case Feed(_, _, _, _, _) =>
      if selector == sel.latestRoundData then Ok(RoundTuple(d)) else Revert()
  }

  function Respond(sel: Selectors, world: World, to: Address, data: seq<byte>): Result<seq<byte>> {
    if to !in world then Ok([])
    else if |data| < 4 then Revert()
    else Answer(sel, world[to], data[..4], data[4..])
  }

  /** The node: accepts only prefixed hex, and answers in prefixed hex. */
  function Serve(sel: Selectors, world: World): Node {
    (to: Address, hex: string) =>
      if |hex| < 2 || hex[..2] != "0x" || Unhex(hex).None? then Err("invalid argument") else
        match Respond(sel, world, to, Unhex(hex).value)
        case Err(e) => Err(e)
        case Ok(out) => Ok("0x" + HexOf(out))
  }

  /** Each contract can tell its functions apart by their selectors. */
  ghost predicate SelectorsDiffer(sel: Selectors) {
    && sel.getInt != sel.getUint
    && sel.getBool !in {sel.getUint, sel.getInt}
    && sel.getAddressCount !in {sel.getUint, sel.getInt, sel.getBool}
    && sel.getBytes32Count !in {sel.getUint, sel.getInt, sel.getBool, sel.getAddressCount}
    && sel.getRoleMemberCount != sel.getRoleMembers
  }

  /** Seen through the client's hex layer, the node answers like the contracts of this world. */
  ghost predicate Serves(c: Chain, world: World) {
    forall to: Address, data: seq<byte> :: AnsweredBy(c, world, to, data)
  }

  ghost predicate AnsweredBy(c: Chain, world: World, to: Address, data: seq<byte>) {
    EthCall(c, to, data) == Respond(c.sel, world, to, data)
  }

  /** The hex layer is transparent: a client of the reference node sees exactly the contracts. */
  lemma ReferenceNodeServes(sel: Selectors, world: World)
    ensures Serves(Chain(sel, Serve(sel, world)), world)
  {
    forall to: Address, data: seq<byte>
      ensures AnsweredBy(Chain(sel, Serve(sel, world)), world, to, data)
    {
      PrintThenDecode(data);
      assert ("0x" + HexOf(data))[..2] == "0x";
      var answer := Respond(sel, world, to, data);
      if answer.Ok? {
        PrintThenDecode(answer.value);
      }
    }
  }

  lemma CallIsAnswered(c: Chain, world: World, to: Address, selector: Selector, args: seq<byte>)
    requires Serves(c, world) && to in world
    ensures EthCall(c, to, selector + args) == Answer(c.sel, world[to], selector, args)
  {
    var data: seq<byte> := selector + args;
    assert AnsweredBy(c, world, to, data);
    assert data[..4] == selector && data[4..] == args;
  }

  lemma BareCallIsAnswered(c: Chain, world: World, to: Address, selector: Selector)
    requires Serves(c, world) && to in world
    ensures EthCall(c, to, selector) == Answer(c.sel, world[to], selector, [])
  {
    CallIsAnswered(c, world, to, selector, []);
    assert selector + [] == selector;
  }

  lemma FirstArgument(key: Word)
    ensures WordAt(key, 0) == key
  {
  }

  lemma UintReadAgrees(c: Chain, world: World, ds: Address, key: Word)
    requires Serves(c, world) && ds in world && world[ds].DataStore?
    ensures UintAt(c, ds, key) == Ok(Stored(world[ds].uints, key, 0))
  {
    CallIsAnswered(c, world, ds, c.sel.getUint, key);
    FirstArgument(key);
    WordRoundTrip(Stored(world[ds].uints, key, 0));
  }

  lemma IntReadAgrees(c: Chain, world: World, ds: Address, key: Word)
    requires Serves(c, world) && SelectorsDiffer(c.sel) && ds in world && world[ds].DataStore?
    ensures IntAt(c, ds, key) == Ok(Stored(world[ds].ints, key, 0))
  {
    CallIsAnswered(c, world, ds, c.sel.getInt, key);
    FirstArgument(key);
    SignedWordBijection(key, Stored(world[ds].ints, key, 0));
  }

  lemma BoolReadAgrees(c: Chain, world: World, ds: Address, key: Word)
    requires Serves(c, world) && SelectorsDiffer(c.sel) && ds in world && world[ds].DataStore?
    ensures BoolAt(c, ds, key) == Ok(Stored(world[ds].bools, key, false))
  {
    CallIsAnswered(c, world, ds, c.sel.getBool, key);
    FirstArgument(key);
  }

  lemma CountReadsAgree(c: Chain, world: World, ds: Address, key: Word)
    requires Serves(c, world) && SelectorsDiffer(c.sel) && ds in world && world[ds].DataStore?
    ensures CountAt(c, ds, c.sel.getAddressCount, key)
         == Ok(Stored(world[ds].addressCounts, key, 0) % TWO_64)
    ensures CountAt(c, ds, c.sel.getBytes32Count, key)
         == Ok(Stored(world[ds].bytes32Counts, key, 0) % TWO_64)
  {
    CallIsAnswered(c, world, ds, c.sel.getAddressCount, key);
    CallIsAnswered(c, world, ds, c.sel.getBytes32Count, key);
    FirstArgument(key);
    WordRoundTrip(Stored(world[ds].addressCounts, key, 0));
    WordRoundTrip(Stored(world[ds].bytes32Counts, key, 0));
  }

  /** Every DataStore read returns what is stored under the key; a count is exact when it fits 64 bits. */
  lemma DataStoreReadsAgree(c: Chain, world: World, ds: Address, key: Word)
    requires Serves(c, world) && SelectorsDiffer(c.sel) && ds in world && world[ds].DataStore?
    ensures var d := world[ds];
      && UintAt(c, ds, key) == Ok(Stored(d.uints, key, 0))
      && IntAt(c, ds, key) == Ok(Stored(d.ints, key, 0))
      && BoolAt(c, ds, key) == Ok(Stored(d.bools, key, false))
      && CountAt(c, ds, c.sel.getAddressCount, key) == Ok(Stored(d.addressCounts, key, 0) % TWO_64)
      && CountAt(c, ds, c.sel.getBytes32Count, key) == Ok(Stored(d.bytes32Counts, key, 0) % TWO_64)
  {
    UintReadAgrees(c, world, ds, key);
    IntReadAgrees(c, world, ds, key);
    BoolReadAgrees(c, world, ds, key);
    CountReadsAgree(c, world, ds, key);
  }

  lemma MemberCountAgrees(c: Chain, world: World, rs: Address, role: Word)
    requires Serves(c, world) && rs in world && world[rs].RoleStore?
    requires |Stored(world[rs].members, role, [])| < TWO_256
    ensures CountAt(c, rs, c.sel.getRoleMemberCount, role)
         == Ok(|Stored(world[rs].members, role, [])| % TWO_64)
  {
    CallIsAnswered(c, world, rs, c.sel.getRoleMemberCount, role);
    FirstArgument(role);
    WordRoundTrip(|Stored(world[rs].members, role, [])|);
  }

  /**
    getRoleMembers returns exactly the requested slice, cut off at the last member, however far past it the requested
    end is. A slice of 2^59 members or more is not one that a client could hold.
   */
  lemma MembersAgree(c: Chain, world: World, rs: Address, role: Word, start: uint64, end: uint64)
    requires Serves(c, world) && SelectorsDiffer(c.sel) && rs in world && world[rs].RoleStore?
    requires Lesser(end, |Stored(world[rs].members, role, [])|) < start + TWO_59
    ensures var list := Stored(world[rs].members, role, []);
      var last := Lesser(end, |list|);
      MembersAt(c, rs, role, start, end)
        == if start <= last then Ok(Addresses(list[start..last])) else Err(REVERTED)
  {
    var args: seq<byte> := role + UintWord(start) + UintWord(end);
    CallIsAnswered(c, world, rs, c.sel.getRoleMembers, args);
    MembersCalldataSplits(c.sel, role, start, end);
    MembersAnswered(c.sel, world[rs], role, start, end);
    var list := Stored(world[rs].members, role, []);
    if start <= Lesser(end, |list|) {
      DecodeEncodeArray(list[start..Lesser(end, |list|)]);
    }
  }

  lemma MembersCalldataSplits(sel: Selectors, role: Word, start: uint64, end: uint64)
    ensures MembersCalldata(sel, role, start, end) == sel.getRoleMembers + (role + UintWord(start) + UintWord(end))
  {
    var a: seq<byte>, b: seq<byte> := sel.getRoleMembers, role;
    var c: seq<byte>, d: seq<byte> := UintWord(start), UintWord(end);
    assert a + b + c + d == a + (b + c + d);
  }

  lemma MembersAnswered(sel: Selectors, d: Contract, role: Word, start: uint64, end: uint64)
    requires SelectorsDiffer(sel) && d.RoleStore?
    ensures var list := Stored(d.members, role, []);
      var last := Lesser(end, |list|);
      Answer(sel, d, sel.getRoleMembers, role + UintWord(start) + UintWord(end))
        == if start <= last then Ok(EncodeArray(list[start..last])) else Revert()
  {
    ThreeWords(role, UintWord(start), UintWord(end));
    WordRoundTrip(start);
    WordRoundTrip(end);
    SliceAnswered(sel, d, role + UintWord(start) + UintWord(end));
  }

  lemma SliceAnswered(sel: Selectors, d: Contract, args: seq<byte>)
    requires SelectorsDiffer(sel) && d.RoleStore? && |args| == 96
    ensures var list := Stored(d.members, WordAt(args, 0), []);
      var start, last := BE(WordAt(args, 32)), Lesser(BE(WordAt(args, 64)), |list|);
      Answer(sel, d, sel.getRoleMembers, args) == if start <= last then Ok(EncodeArray(list[start..last])) else Revert()
  {
  }

  lemma ThreeWords(a: Word, b: Word, c: Word)
    ensures WordAt(a + b + c, 0) == a && WordAt(a + b + c, 32) == b && WordAt(a + b + c, 64) == c
  {
  }

  lemma TokenReadAgrees(c: Chain, world: World, token: Address, holder: Address)
    requires Serves(c, world) && token in world && world[token].Token?
    ensures BalanceAt(c, token, holder) == Ok(Stored(world[token].balances, holder, 0))
  {
    CallIsAnswered(c, world, token, c.sel.balanceOf, AddressWord(holder));
    AddressArgument(holder);
    WordRoundTrip(Stored(world[token].balances, holder, 0));
  }

  lemma AddressArgument(a: Address)
    ensures AddressWord(a)[..12] == Zeros(12) && AddressWord(a)[12..32] == a
  {
  }

  lemma TimelockReadAgrees(c: Chain, world: World, timelock: Address)
    requires Serves(c, world) && timelock in world && world[timelock].Timelock?
    ensures MinDelayAt(c, timelock) == Ok(world[timelock].minDelay % TWO_64)
  {
    DelayAnswered(c, world, timelock);
    LowOfWord(EthCall(c, timelock, c.sel.getMinDelay), world[timelock].minDelay);
  }

  lemma DelayAnswered(c: Chain, world: World, timelock: Address)
    requires Serves(c, world) && timelock in world && world[timelock].Timelock?
    ensures EthCall(c, timelock, c.sel.getMinDelay) == Ok(UintWord(world[timelock].minDelay))
  {
    BareCallIsAnswered(c, world, timelock, c.sel.getMinDelay);
  }

  lemma LowOfWord(reply: Result<seq<byte>>, v: uint256)
    requires reply == Ok(UintWord(v))
    ensures MapOk(reply, Low64BE) == Ok(v % TWO_64)
  {
    WordRoundTrip(v);
  }

  /** The fourth word of the round tuple, whatever the other four hold. */
  lemma FeedReadAgrees(c: Chain, world: World, feed: Address)
    requires Serves(c, world) && feed in world && world[feed].Feed?
    ensures UpdatedAt(c, feed) == Ok(world[feed].updatedAt % TWO_64)
  {
    FeedAnswered(c, world, feed);
    FourthSlot(EthCall(c, feed, c.sel.latestRoundData), world[feed]);
  }

  lemma FeedAnswered(c: Chain, world: World, feed: Address)
    requires Serves(c, world) && feed in world && world[feed].Feed?
    ensures EthCall(c, feed, c.sel.latestRoundData) == Ok(RoundTuple(world[feed]))
  {
    BareCallIsAnswered(c, world, feed, c.sel.latestRoundData);
  }

  lemma FourthSlot(reply: Result<seq<byte>>, d: Contract)
    requires d.Feed? && reply == Ok(RoundTuple(d))
    ensures RoundUpdatedAt(reply) == Ok(d.updatedAt % TWO_64)
  {
    assert reply.value[96..128] == UintWord(d.updatedAt);
    WordRoundTrip(d.updatedAt);
  }

  // ---------- replies that are not hex ----------

  /** After its optional prefix, the text has odd length or a foreign digit. */
  predicate Garbled(hex: string) {
    |StripPrefix(hex)| % 2 != 0 || exists i :: 0 <= i < |StripPrefix(hex)| && !IsHexDigit(StripPrefix(hex)[i])
  }

  /** This call is answered with this text. */
  predicate Replies(c: Chain, to: Address, data: seq<byte>, hex: string) {
    c.node(to, "0x" + HexOf(data)) == Ok(hex)
  }

  /** What a call returns is decided by its own reply: nothing for a garbled one, else the bytes that print as it. */
  lemma ReplyDecides(c: Chain, to: Address, data: seq<byte>, hex: string) returns (out: seq<byte>)
    requires Replies(c, to, data, hex)
    ensures EthCall(c, to, data) == Ok(out)
    ensures Garbled(hex) ==> out == []
    ensures !Garbled(hex) ==> Unhex(hex) == Some(out) && HexOf(out) == Lower(StripPrefix(hex))
  {
    DecodeThenPrint(hex);
    assert Garbled(hex) <==> Unhex(hex).None?;
    out := if Garbled(hex) then [] else Unhex(hex).value;
  }

  /** Nothing but zero digits, if any at all. */
  predicate ZeroDigitsOnly(hex: string) {
    forall k :: 0 <= k < |StripPrefix(hex)| ==> StripPrefix(hex)[k] == '0'
  }

  lemma ZeroReply(hex: string, out: seq<byte>)
    requires Unhex(hex) == Some(out)
    ensures BE(out) == 0 <==> ZeroDigitsOnly(hex)
  {
    SpellsZero(out);
    ZeroDigits(StripPrefix(hex));
  }

  /**
    One garbled reply is not an error. An unsigned read returns the number that the digits spell, and zero exactly for a
    garbled reply or one without a nonzero digit.
   */
  lemma GarbledReplyReadsAsZero(c: Chain, to: Address, key: Word, hex: string)
    requires Replies(c, to, c.sel.getUint + key, hex)
    ensures UintAt(c, to, key) == Ok(if Garbled(hex) then 0 else BE(Unhex(hex).value))
    ensures UintAt(c, to, key) == Ok(0) <==> Garbled(hex) || ZeroDigitsOnly(hex)
  {
    var out := ReplyDecides(c, to, c.sel.getUint + key, hex);
    if !Garbled(hex) {
      ZeroReply(hex, out);
    }
  }

  /** The same for signed numbers and flags. */
  lemma GarbledReplyReadsAsFalse(c: Chain, to: Address, key: Word, hex: string)
    ensures Replies(c, to, c.sel.getInt + key, hex) ==>
      IntAt(c, to, key) == Ok(if Garbled(hex) then 0 else SignedBE(Unhex(hex).value))
    ensures Replies(c, to, c.sel.getBool + key, hex) ==>
      BoolAt(c, to, key) == Ok(!Garbled(hex) && Truth(Unhex(hex).value))
  {
    if Replies(c, to, c.sel.getInt + key, hex) {
      var out := ReplyDecides(c, to, c.sel.getInt + key, hex);
    }
    if Replies(c, to, c.sel.getBool + key, hex) {
      var out := ReplyDecides(c, to, c.sel.getBool + key, hex);
    }
  }

  /** For counts of any kind, balances and the timelock delay. */
  lemma GarbledReplyCountsAsZero(c: Chain, to: Address, selector: Selector, key: Word, holder: Address, hex: string)
    ensures Replies(c, to, selector + key, hex) ==>
      CountAt(c, to, selector, key) == Ok(if Garbled(hex) then 0 else Low64BE(Unhex(hex).value))
    ensures Replies(c, to, c.sel.balanceOf + AddressWord(holder), hex) ==>
      BalanceAt(c, to, holder) == Ok(if Garbled(hex) then 0 else BE(Unhex(hex).value))
    ensures Replies(c, to, c.sel.getMinDelay, hex) ==>
      MinDelayAt(c, to) == Ok(if Garbled(hex) then 0 else Low64BE(Unhex(hex).value))
  {
    if Replies(c, to, selector + key, hex) {
      var out := ReplyDecides(c, to, selector + key, hex);
    }
    if Replies(c, to, c.sel.balanceOf + AddressWord(holder), hex) {
      var out := ReplyDecides(c, to, c.sel.balanceOf + AddressWord(holder), hex);
    }
    if Replies(c, to, c.sel.getMinDelay, hex) {
      var out := ReplyDecides(c, to, c.sel.getMinDelay, hex);
    }
  }

  /** And for a member list. */
  lemma GarbledReplyReadsAsNoMembers(c: Chain, to: Address, role: Word, start: uint64, end: uint64, hex: string)
    requires Replies(c, to, MembersCalldata(c.sel, role, start, end), hex)
    ensures MembersAt(c, to, role, start, end) == Ok(if Garbled(hex) then Addresses([]) else Decode(Unhex(hex).value))
  {
    var out := ReplyDecides(c, to, MembersCalldata(c.sel, role, start, end), hex);
  }

  /** A price feed alone notices: its read fails exactly for a garbled reply or one of fewer than 256 digits. */
  lemma GarbledRoundIsAnError(c: Chain, feed: Address, hex: string)
    requires Replies(c, feed, c.sel.latestRoundData, hex)
    ensures UpdatedAt(c, feed).Err? <==> Garbled(hex) || |StripPrefix(hex)| < 256
    ensures UpdatedAt(c, feed).Ok? ==> UpdatedAt(c, feed) == Ok(Low64BE(Unhex(hex).value[96..128]))
  {
    var out := ReplyDecides(c, feed, c.sel.latestRoundData, hex);
  }
}

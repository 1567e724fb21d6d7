/** Storage keys: hashes of ABI-encoded names and arguments. The hash function itself is a parameter. */
module Keys {
  import opened Bytes
  import opened Abi

  type HashFn = seq<byte> -> Word

  /** A name's bytes; as elsewhere, one char of a string stands for one byte. */
  function Ascii(s: string): (b: seq<byte>)
    ensures |b| == |s|
  {
    seq(|s|, i requires 0 <= i < |s| => s[i] as int % 256)
  }

  const OPEN_INTEREST := Ascii("OPEN_INTEREST")
  const POOL_AMOUNT := Ascii("POOL_AMOUNT")
  const MAX_OPEN_INTEREST := Ascii("MAX_OPEN_INTEREST")
  const MAX_POOL_AMOUNT := Ascii("MAX_POOL_AMOUNT")
  const MIN_COLLATERAL_FACTOR := Ascii("MIN_COLLATERAL_FACTOR")
  const BORROWING_FACTOR := Ascii("BORROWING_FACTOR")
  const LIQUIDATION_FEE_FACTOR := Ascii("LIQUIDATION_FEE_FACTOR")
  const CLAIMABLE_FEE_AMOUNT := Ascii("CLAIMABLE_FEE_AMOUNT")
  const FUNDING_FEE_AMOUNT_PER_SIZE := Ascii("FUNDING_FEE_AMOUNT_PER_SIZE")

  // ---------- names as bytes ----------

  ghost predicate IsByteString(s: string) {
    forall i :: 0 <= i < |s| ==> s[i] as int < 256
  }

  /** Reads the bytes of a name back as characters. */
  function Chars(b: seq<byte>): string {
    seq(|b|, i requires 0 <= i < |b| => b[i] as char)
  }

  lemma AsciiCodes(s: string, i: nat)
    requires i < |s| && s[i] as int < 256
    ensures Ascii(s)[i] == s[i] as int
  {
  }

  lemma CharsOfAscii(s: string)
    requires IsByteString(s)
    ensures Chars(Ascii(s)) == s
  {
    forall i | 0 <= i < |s|
      ensures Chars(Ascii(s))[i] == s[i]
    {
      AsciiCodes(s, i);
    }
  }

  /** Different names are different bytes. */
  lemma AsciiInjective(a: string, b: string)
    requires IsByteString(a) && IsByteString(b) && Ascii(a) == Ascii(b)
    ensures a == b
  {
    CharsOfAscii(a);
    CharsOfAscii(b);
  }

  lemma InterestNames()
    ensures Chars(OPEN_INTEREST) == "OPEN_INTEREST"
    ensures Chars(MAX_OPEN_INTEREST) == "MAX_OPEN_INTEREST"
  {
    CharsOfAscii("OPEN_INTEREST");
    CharsOfAscii("MAX_OPEN_INTEREST");
  }

  lemma PoolNames()
    ensures Chars(POOL_AMOUNT) == "POOL_AMOUNT"
    ensures Chars(MAX_POOL_AMOUNT) == "MAX_POOL_AMOUNT"
  {
    CharsOfAscii("POOL_AMOUNT");
    CharsOfAscii("MAX_POOL_AMOUNT");
  }

  lemma FactorNames()
    ensures Chars(MIN_COLLATERAL_FACTOR) == "MIN_COLLATERAL_FACTOR"
    ensures Chars(BORROWING_FACTOR) == "BORROWING_FACTOR"
    ensures Chars(LIQUIDATION_FEE_FACTOR) == "LIQUIDATION_FEE_FACTOR"
  {
    CharsOfAscii("MIN_COLLATERAL_FACTOR");
    CharsOfAscii("BORROWING_FACTOR");
    CharsOfAscii("LIQUIDATION_FEE_FACTOR");
  }

  lemma FeeNames()
    ensures Chars(CLAIMABLE_FEE_AMOUNT) == "CLAIMABLE_FEE_AMOUNT"
    ensures Chars(FUNDING_FEE_AMOUNT_PER_SIZE) == "FUNDING_FEE_AMOUNT_PER_SIZE"
  {
    CharsOfAscii("CLAIMABLE_FEE_AMOUNT");
    CharsOfAscii("FUNDING_FEE_AMOUNT_PER_SIZE");
  }

  function Concat(parts: seq<seq<byte>>): seq<byte> {
    if parts == [] then [] else parts[0] + Concat(parts[1..])
  }

  function KeccakOf(H: HashFn, parts: seq<seq<byte>>): Word {
    H(Concat(parts))
  }

  method HashParts(H: HashFn, parts: seq<seq<byte>>) returns (h: Word)
    ensures h == KeccakOf(H, parts)
  {
    var buf: seq<byte> := [];
    for i := 0 to |parts|
      invariant buf + Concat(parts[i..]) == Concat(parts)
    {
      assert buf + Concat(parts[i..]) == buf + parts[i] + Concat(parts[i + 1..]);
      buf := buf + parts[i];
    }
    assert buf + Concat(parts[|parts|..]) == buf;
    h := H(buf);
  }

  function RootHash(H: HashFn, name: seq<byte>): Word {
    H(AbiString(name))
  }

  function MinCollateralFactorKey(H: HashFn, market: Address): Word {
    KeccakOf(H, [RootHash(H, MIN_COLLATERAL_FACTOR), AddressWord(market)])
  }

  function MaxOpenInterestKey(H: HashFn, market: Address, isLong: bool): Word {
    KeccakOf(H, [RootHash(H, MAX_OPEN_INTEREST), AddressWord(market), BoolWord(isLong)])
  }

  function PoolAmountKey(H: HashFn, market: Address, token: Address): Word {
    KeccakOf(H, [RootHash(H, POOL_AMOUNT), AddressWord(market), AddressWord(token)])
  }

  function MaxPoolAmountKey(H: HashFn, market: Address, token: Address): Word {
    KeccakOf(H, [RootHash(H, MAX_POOL_AMOUNT), AddressWord(market), AddressWord(token)])
  }

  function OpenInterestKey(H: HashFn, market: Address, collateral: Address, isLong: bool): Word {
    KeccakOf(H, [RootHash(H, OPEN_INTEREST), AddressWord(market), AddressWord(collateral), BoolWord(isLong)])
  }

  function BorrowingFactorKey(H: HashFn, market: Address, isLong: bool): Word {
    KeccakOf(H, [RootHash(H, BORROWING_FACTOR), AddressWord(market), BoolWord(isLong)])
  }

  function LiquidationFeeFactorKey(H: HashFn, market: Address): Word {
    KeccakOf(H, [RootHash(H, LIQUIDATION_FEE_FACTOR), AddressWord(market)])
  }

  function ClaimableFeeAmountKey(H: HashFn, market: Address, token: Address): Word {
    KeccakOf(H, [RootHash(H, CLAIMABLE_FEE_AMOUNT), AddressWord(market), AddressWord(token)])
  }

  function FundingFeeAmountPerSizeKey(H: HashFn, market: Address, collateral: Address, isLong: bool): Word {
    var root := RootHash(H, FUNDING_FEE_AMOUNT_PER_SIZE);
    KeccakOf(H, [root, AddressWord(market), AddressWord(collateral), BoolWord(isLong)])
  }

  function FeatureKeyForHandler(H: HashFn, name: seq<byte>, handler: Address): Word {
    KeccakOf(H, [RootHash(H, name), AddressWord(handler)])
  }

  /** One call of a key constructor. Root stands for RoleHash, FeatureKeyRoot and the list roots alike. */
  datatype Key =
    | Root(name: seq<byte>)
    | MinCollateralFactor(market: Address)
    | MaxOpenInterest(market: Address, isLong: bool)
    | PoolAmount(market: Address, token: Address)
    | MaxPoolAmount(market: Address, token: Address)
    | OpenInterest(market: Address, collateral: Address, isLong: bool)
    | BorrowingFactor(market: Address, isLong: bool)
    | LiquidationFeeFactor(market: Address)
    | ClaimableFeeAmount(market: Address, token: Address)
    | FundingFeeAmountPerSize(market: Address, collateral: Address, isLong: bool)
    | FeatureForHandler(name: seq<byte>, handler: Address)

  function KeyOf(H: HashFn, k: Key): Word {
    match k
    case Root(name) => RootHash(H, name)
    case MinCollateralFactor(m) => MinCollateralFactorKey(H, m)
    case MaxOpenInterest(m, l) => MaxOpenInterestKey(H, m, l)
    case PoolAmount(m, t) => PoolAmountKey(H, m, t)
    case MaxPoolAmount(m, t) => MaxPoolAmountKey(H, m, t)
    case OpenInterest(m, c, l) => OpenInterestKey(H, m, c, l)
    case BorrowingFactor(m, l) => BorrowingFactorKey(H, m, l)
    case LiquidationFeeFactor(m) => LiquidationFeeFactorKey(H, m)
    case ClaimableFeeAmount(m, t) => ClaimableFeeAmountKey(H, m, t)
    case FundingFeeAmountPerSize(m, c, l) => FundingFeeAmountPerSizeKey(H, m, c, l)
    case FeatureForHandler(name, h) => FeatureKeyForHandler(H, name, h)
  }

  datatype Arg = Addr(a: Address) | Flag(b: bool)

  function WordOf(arg: Arg): Word {
    match arg
    case Addr(a) => AddressWord(a)
    case Flag(b) => BoolWord(b)
  }

  function Words(args: seq<Arg>): (w: seq<Word>)
    ensures |w| == |args|
  {
    seq(|args|, i requires 0 <= i < |args| => WordOf(args[i]))
  }

  /** What a key is about: a root name and arguments. */
  datatype Scope = Scope(name: seq<byte>, args: seq<Arg>)

  function ScopeOf(k: Key): Scope {
    match k
    case Root(name) => Scope(name, [])
    case MinCollateralFactor(m) => Scope(MIN_COLLATERAL_FACTOR, [Addr(m)])
    case MaxOpenInterest(m, l) => Scope(MAX_OPEN_INTEREST, [Addr(m), Flag(l)])
    case PoolAmount(m, t) => Scope(POOL_AMOUNT, [Addr(m), Addr(t)])
    case MaxPoolAmount(m, t) => Scope(MAX_POOL_AMOUNT, [Addr(m), Addr(t)])
    case OpenInterest(m, c, l) => Scope(OPEN_INTEREST, [Addr(m), Addr(c), Flag(l)])
    case BorrowingFactor(m, l) => Scope(BORROWING_FACTOR, [Addr(m), Flag(l)])
    case LiquidationFeeFactor(m) => Scope(LIQUIDATION_FEE_FACTOR, [Addr(m)])
    case ClaimableFeeAmount(m, t) => Scope(CLAIMABLE_FEE_AMOUNT, [Addr(m), Addr(t)])
    case FundingFeeAmountPerSize(m, c, l) => Scope(FUNDING_FEE_AMOUNT_PER_SIZE, [Addr(m), Addr(c), Flag(l)])
    case FeatureForHandler(name, h) => Scope(name, [Addr(h)])
  }

  /** The bytes that are hashed last. */
  function Preimage(H: HashFn, s: Scope): seq<byte> {
    if s.args == [] then AbiString(s.name) else RootHash(H, s.name) + Concat(Words(s.args))
  }

  ghost predicate SameCell(s: Scope, t: Scope) {
    s.name == t.name && Words(s.args) == Words(t.args)
  }

  lemma RootedKey(H: HashFn, name: seq<byte>, args: seq<Arg>)
    requires args != []
    ensures KeccakOf(H, [RootHash(H, name)] + Words(args)) == H(Preimage(H, Scope(name, args)))
  {
    var parts: seq<seq<byte>> := [RootHash(H, name)] + Words(args);
    assert parts[1..] == Words(args);
  }

  lemma OneArgument(H: HashFn, name: seq<byte>, a: Arg)
    ensures KeccakOf(H, [RootHash(H, name), WordOf(a)]) == H(Preimage(H, Scope(name, [a])))
  {
    RootedKey(H, name, [a]);
    assert [RootHash(H, name), WordOf(a)] == [RootHash(H, name)] + Words([a]);
  }

  lemma TwoArguments(H: HashFn, name: seq<byte>, a: Arg, b: Arg)
    ensures KeccakOf(H, [RootHash(H, name), WordOf(a), WordOf(b)]) == H(Preimage(H, Scope(name, [a, b])))
  {
    RootedKey(H, name, [a, b]);
    assert [RootHash(H, name), WordOf(a), WordOf(b)] == [RootHash(H, name)] + Words([a, b]);
  }

  lemma ThreeArguments(H: HashFn, name: seq<byte>, a: Arg, b: Arg, c: Arg)
    ensures KeccakOf(H, [RootHash(H, name), WordOf(a), WordOf(b), WordOf(c)]) == H(Preimage(H, Scope(name, [a, b, c])))
  {
    RootedKey(H, name, [a, b, c]);
    assert [RootHash(H, name), WordOf(a), WordOf(b), WordOf(c)] == [RootHash(H, name)] + Words([a, b, c]);
  }

  lemma OneArgumentKeys(H: HashFn, k: Key)
    requires k.MinCollateralFactor? || k.LiquidationFeeFactor? || k.FeatureForHandler?
    ensures KeyOf(H, k) == H(Preimage(H, ScopeOf(k)))
  {
    match k
    case MinCollateralFactor(m) => OneArgument(H, MIN_COLLATERAL_FACTOR, Addr(m));
    case LiquidationFeeFactor(m) => OneArgument(H, LIQUIDATION_FEE_FACTOR, Addr(m));
    case FeatureForHandler(name, h) => OneArgument(H, name, Addr(h));
  }

  lemma SidedKeys(H: HashFn, k: Key)
    requires k.MaxOpenInterest? || k.BorrowingFactor?
    ensures KeyOf(H, k) == H(Preimage(H, ScopeOf(k)))
  {
    match k
    case MaxOpenInterest(m, l) => TwoArguments(H, MAX_OPEN_INTEREST, Addr(m), Flag(l));
    case BorrowingFactor(m, l) => TwoArguments(H, BORROWING_FACTOR, Addr(m), Flag(l));
  }

  lemma TokenKeys(H: HashFn, k: Key)
    requires k.PoolAmount? || k.MaxPoolAmount? || k.ClaimableFeeAmount?
    ensures KeyOf(H, k) == H(Preimage(H, ScopeOf(k)))
  {
    match k
    case PoolAmount(m, t) => TwoArguments(H, POOL_AMOUNT, Addr(m), Addr(t));
    case MaxPoolAmount(m, t) => TwoArguments(H, MAX_POOL_AMOUNT, Addr(m), Addr(t));
    case ClaimableFeeAmount(m, t) => TwoArguments(H, CLAIMABLE_FEE_AMOUNT, Addr(m), Addr(t));
  }

  lemma CollateralKeys(H: HashFn, k: Key)
    requires k.OpenInterest? || k.FundingFeeAmountPerSize?
    ensures KeyOf(H, k) == H(Preimage(H, ScopeOf(k)))
  {
    match k
    case OpenInterest(m, c, l) => ThreeArguments(H, OPEN_INTEREST, Addr(m), Addr(c), Flag(l));
    case FundingFeeAmountPerSize(m, c, l) =>
      ThreeArguments(H, FUNDING_FEE_AMOUNT_PER_SIZE, Addr(m), Addr(c), Flag(l));
  }

  lemma KeyHashesPreimage(H: HashFn, k: Key)
    ensures KeyOf(H, k) == H(Preimage(H, ScopeOf(k)))
  {
    if k.MaxOpenInterest? || k.BorrowingFactor? {
      SidedKeys(H, k);
    } else if k.PoolAmount? || k.MaxPoolAmount? || k.ClaimableFeeAmount? {
      TokenKeys(H, k);
    } else if k.OpenInterest? || k.FundingFeeAmountPerSize? {
      CollateralKeys(H, k);
    } else if !k.Root? {
      OneArgumentKeys(H, k);
    }
  }

  lemma ConcatCons(p: seq<byte>, rest: seq<seq<byte>>, parts: seq<seq<byte>>)
    requires parts == [p] + rest
    ensures Concat(parts) == p + Concat(rest)
  {
    assert parts[1..] == rest;
  }

  lemma ConcatFew(a: seq<byte>, b: seq<byte>, c: seq<byte>, d: seq<byte>)
    ensures Concat([a, b]) == a + b
    ensures Concat([a, b, c]) == a + b + c
    ensures Concat([a, b, c, d]) == a + b + c + d
  {
    ConcatCons(a, [b], [a, b]);
    ConcatCons(b, [], [b]);
    ConcatCons(a, [b, c], [a, b, c]);
    ConcatCons(b, [c], [b, c]);
    ConcatCons(c, [], [c]);
    ConcatCons(a, [b, c, d], [a, b, c, d]);
    ConcatCons(b, [c, d], [b, c, d]);
    ConcatCons(c, [d], [c, d]);
    ConcatCons(d, [], [d]);
    assert b + [] == b && c + [] == c && d + [] == d;
    assert a + (b + c) == a + b + c && a + (b + (c + d)) == a + b + c + d;
  }

  /** The keys with one argument, byte by byte: the hash of the root's hash and the padded address. */
  lemma OneArgumentTable(H: HashFn, name: seq<byte>, m: Address)
    ensures KeyOf(H, Root(name)) == H(AbiString(name))
    ensures KeyOf(H, MinCollateralFactor(m)) == H(H(AbiString(MIN_COLLATERAL_FACTOR)) + AddressWord(m))
    ensures KeyOf(H, LiquidationFeeFactor(m)) == H(H(AbiString(LIQUIDATION_FEE_FACTOR)) + AddressWord(m))
    ensures KeyOf(H, FeatureForHandler(name, m)) == H(H(AbiString(name)) + AddressWord(m))
  {
    ConcatFew(H(AbiString(MIN_COLLATERAL_FACTOR)), AddressWord(m), [], []);
    ConcatFew(H(AbiString(LIQUIDATION_FEE_FACTOR)), AddressWord(m), [], []);
    ConcatFew(H(AbiString(name)), AddressWord(m), [], []);
  }

  /** The keys of a market and a side. */
  lemma SidedTable(H: HashFn, m: Address, l: bool)
    ensures KeyOf(H, MaxOpenInterest(m, l)) == H(H(AbiString(MAX_OPEN_INTEREST)) + AddressWord(m) + BoolWord(l))
    ensures KeyOf(H, BorrowingFactor(m, l)) == H(H(AbiString(BORROWING_FACTOR)) + AddressWord(m) + BoolWord(l))
  {
    ConcatFew(H(AbiString(MAX_OPEN_INTEREST)), AddressWord(m), BoolWord(l), []);
    ConcatFew(H(AbiString(BORROWING_FACTOR)), AddressWord(m), BoolWord(l), []);
  }

  /** The keys of a market and a token. */
  lemma TokenTable(H: HashFn, m: Address, t: Address)
    ensures KeyOf(H, PoolAmount(m, t)) == H(H(AbiString(POOL_AMOUNT)) + AddressWord(m) + AddressWord(t))
    ensures KeyOf(H, MaxPoolAmount(m, t)) == H(H(AbiString(MAX_POOL_AMOUNT)) + AddressWord(m) + AddressWord(t))
    ensures KeyOf(H, ClaimableFeeAmount(m, t))
         == H(H(AbiString(CLAIMABLE_FEE_AMOUNT)) + AddressWord(m) + AddressWord(t))
  {
    ConcatFew(H(AbiString(POOL_AMOUNT)), AddressWord(m), AddressWord(t), []);
    ConcatFew(H(AbiString(MAX_POOL_AMOUNT)), AddressWord(m), AddressWord(t), []);
    ConcatFew(H(AbiString(CLAIMABLE_FEE_AMOUNT)), AddressWord(m), AddressWord(t), []);
  }

  /** The keys of a market, a collateral token and a side. */
  lemma CollateralTable(H: HashFn, m: Address, c: Address, l: bool)
    ensures KeyOf(H, OpenInterest(m, c, l))
         == H(H(AbiString(OPEN_INTEREST)) + AddressWord(m) + AddressWord(c) + BoolWord(l))
    ensures KeyOf(H, FundingFeeAmountPerSize(m, c, l))
         == H(H(AbiString(FUNDING_FEE_AMOUNT_PER_SIZE)) + AddressWord(m) + AddressWord(c) + BoolWord(l))
  {
    ConcatFew(H(AbiString(OPEN_INTEREST)), AddressWord(m), AddressWord(c), BoolWord(l));
    ConcatFew(H(AbiString(FUNDING_FEE_AMOUNT_PER_SIZE)), AddressWord(m), AddressWord(c), BoolWord(l));
  }

  ghost predicate Collision(H: HashFn, x: seq<byte>, y: seq<byte>) {
    x != y && H(x) == H(y)
  }

  /**
    The hash function fails on strings named here: two different ones share a hash, or a root hash is the number 0x20.
   */
  ghost predicate HashFails(H: HashFn, s: Scope, t: Scope) {
    || Collision(H, Preimage(H, s), Preimage(H, t))
    || Collision(H, AbiString(s.name), AbiString(t.name))
    || (s.args == [] && t.args != [] && RootHash(H, t.name) == UintWord(32))
    || (t.args == [] && s.args != [] && RootHash(H, s.name) == UintWord(32))
  }

  lemma {:induction false} ConcatLength(args: seq<Word>)
    ensures |Concat(args)| == 32 * |args|
  {
    if args != [] {
      ConcatLength(args[1..]);
    }
  }

  lemma {:induction false} ConcatInjective(a: seq<Word>, b: seq<Word>)
    requires Concat(a) == Concat(b)
    ensures a == b
  {
    ConcatLength(a);
    ConcatLength(b);
    if a != [] {
      assert Concat(a)[..32] == a[0] && Concat(b)[..32] == b[0];
      assert Concat(a)[32..] == Concat(a[1..]) && Concat(b)[32..] == Concat(b[1..]);
      ConcatInjective(a[1..], b[1..]);
      assert a == [a[0]] + a[1..] && b == [b[0]] + b[1..];
    }
  }

  /** A root's preimage starts with the word 0x20; the preimage of a key with arguments starts with a root hash. */
  lemma FirstWord(H: HashFn, s: Scope)
    requires |s.name| < TWO_63
    ensures |Preimage(H, s)| >= 32
    ensures Preimage(H, s)[..32] == if s.args == [] then UintWord(32) else RootHash(H, s.name)
  {
    if s.args == [] {
      AbiStringLayout(s.name);
    }
  }

  /** Equal preimages: same cell, or equal root hashes of different names, or a root hash that is the word 0x20. */
  lemma PreimageSeparation(H: HashFn, s: Scope, t: Scope)
    requires |s.name| < TWO_63 && |t.name| < TWO_63
    requires Preimage(H, s) == Preimage(H, t)
    ensures SameCell(s, t) || HashFails(H, s, t)
  {
    FirstWord(H, s);
    FirstWord(H, t);
    if s.args == [] && t.args == [] {
      AbiStringInjective(s.name, t.name);
    } else if s.args != [] && t.args != [] {
      assert Preimage(H, s)[32..] == Concat(Words(s.args)) && Preimage(H, t)[32..] == Concat(Words(t.args));
      ConcatInjective(Words(s.args), Words(t.args));
      if AbiString(s.name) == AbiString(t.name) {
        AbiStringInjective(s.name, t.name);
      }
    }
  }

  /**
    Any two constructor calls with the same key have the same root name and the same argument words, or the hash
    failed.
   */
  lemma KeySeparation(H: HashFn, k: Key, l: Key)
    requires |ScopeOf(k).name| < TWO_63 && |ScopeOf(l).name| < TWO_63
    requires KeyOf(H, k) == KeyOf(H, l)
    ensures SameCell(ScopeOf(k), ScopeOf(l)) || HashFails(H, ScopeOf(k), ScopeOf(l))
  {
    KeyHashesPreimage(H, k);
    KeyHashesPreimage(H, l);
    if Preimage(H, ScopeOf(k)) == Preimage(H, ScopeOf(l)) {
      PreimageSeparation(H, ScopeOf(k), ScopeOf(l));
    }
  }

  /** So unless the hash fails, only the same call, or a feature flag named like a one-market root, has the same key. */
  lemma EqualKeys(H: HashFn, k: Key, l: Key)
    requires |ScopeOf(k).name| < TWO_63 && |ScopeOf(l).name| < TWO_63
    requires !HashFails(H, ScopeOf(k), ScopeOf(l))
    ensures KeyOf(H, k) == KeyOf(H, l) <==> k == l || Aliases(k, l) || Aliases(l, k)
  {
    CellDeterminesKey(k, l);
    if KeyOf(H, k) == KeyOf(H, l) {
      KeySeparation(H, k, l);
    } else {
      KeyHashesPreimage(H, k);
      KeyHashesPreimage(H, l);
    }
  }

  /** Two different names: equal feature or role keys, whatever the handlers, mean that the hash fails. */
  lemma NamedKeysDiffer(H: HashFn, a: string, b: string, x: Address, y: Address)
    requires IsByteString(a) && IsByteString(b) && |a| < TWO_63 && |b| < TWO_63 && a != b
    ensures RootHash(H, Ascii(a)) == RootHash(H, Ascii(b)) ==>
      HashFails(H, Scope(Ascii(a), []), Scope(Ascii(b), []))
    ensures RootHash(H, Ascii(a)) == FeatureKeyForHandler(H, Ascii(b), y) ==>
      HashFails(H, Scope(Ascii(a), []), Scope(Ascii(b), [Addr(y)]))
    ensures FeatureKeyForHandler(H, Ascii(a), x) == FeatureKeyForHandler(H, Ascii(b), y) ==>
      HashFails(H, Scope(Ascii(a), [Addr(x)]), Scope(Ascii(b), [Addr(y)]))
  {
    if Ascii(a) == Ascii(b) {
      AsciiInjective(a, b);
    }
    NamesDiffer(H, Root(Ascii(a)), Root(Ascii(b)));
    NamesDiffer(H, Root(Ascii(a)), FeatureForHandler(Ascii(b), y));
    NamesDiffer(H, FeatureForHandler(Ascii(a), x), FeatureForHandler(Ascii(b), y));
  }

  lemma NamesDiffer(H: HashFn, k: Key, l: Key)
    requires ScopeOf(k).name != ScopeOf(l).name
    requires |ScopeOf(k).name| < TWO_63 && |ScopeOf(l).name| < TWO_63
    ensures KeyOf(H, k) == KeyOf(H, l) ==> HashFails(H, ScopeOf(k), ScopeOf(l))
  {
    if KeyOf(H, k) == KeyOf(H, l) {
      KeySeparation(H, k, l);
    }
  }

  /** A feature name that is also the name of a one-market root reads that market's cell. */
  predicate Aliases(k: Key, l: Key) {
    k.FeatureForHandler? && (
    || (k.name == MIN_COLLATERAL_FACTOR && l == MinCollateralFactor(k.handler))
    || (k.name == LIQUIDATION_FEE_FACTOR && l == LiquidationFeeFactor(k.handler)))
  }

  // ---------- how a scope gives back the constructor call ----------

  /** Tells constructors apart; for a fixed name it is the name's length, which no two of them share. */
  function Tag(k: Key): nat {
    match k
    case Root(_) => 0
    case FeatureForHandler(_, _) => 1
    case MinCollateralFactor(_) => 21
    case MaxOpenInterest(_, _) => 17
    case PoolAmount(_, _) => 11
    case MaxPoolAmount(_, _) => 15
    case OpenInterest(_, _, _) => 13
    case BorrowingFactor(_, _) => 16
    case LiquidationFeeFactor(_) => 22
    case ClaimableFeeAmount(_, _) => 20
    case FundingFeeAmountPerSize(_, _, _) => 27
  }

  predicate EndsInFlag(tag: nat) {
    tag == 17 || tag == 13 || tag == 16 || tag == 27
  }

  predicate OneMarket(tag: nat) {
    tag == 21 || tag == 22 || tag == 1
  }

  ghost predicate Shaped(tag: nat, args: seq<Arg>) {
    && (tag == 0 <==> |args| == 0)
    && (OneMarket(tag) <==> |args| == 1)
    && (tag == 13 || tag == 27 <==> |args| == 3)
    && |args| <= 3
    && forall i :: 0 <= i < |args| ==> (args[i].Flag? <==> i == |args| - 1 && EndsInFlag(tag))
  }

  /** The constructor call with this tag and these arguments. */
  function Rebuild(tag: nat, s: Scope): Key
    requires Shaped(tag, s.args)
  {
    var args := s.args;
    match tag
    case 1 => FeatureForHandler(s.name, args[0].a)
    case 21 => MinCollateralFactor(args[0].a)
    case 22 => LiquidationFeeFactor(args[0].a)
    case 17 => MaxOpenInterest(args[0].a, args[1].b)
    case 16 => BorrowingFactor(args[0].a, args[1].b)
    case 11 => PoolAmount(args[0].a, args[1].a)
    case 15 => MaxPoolAmount(args[0].a, args[1].a)
    case 20 => ClaimableFeeAmount(args[0].a, args[1].a)
    case 13 => OpenInterest(args[0].a, args[1].a, args[2].b)
    case 27 => FundingFeeAmountPerSize(args[0].a, args[1].a, args[2].b)
    case _ => Root(s.name)
  }

  lemma NameLengths()
    ensures |OPEN_INTEREST| == 13 && |POOL_AMOUNT| == 11 && |MAX_OPEN_INTEREST| == 17
    ensures |MAX_POOL_AMOUNT| == 15 && |MIN_COLLATERAL_FACTOR| == 21 && |BORROWING_FACTOR| == 16
    ensures |LIQUIDATION_FEE_FACTOR| == 22 && |CLAIMABLE_FEE_AMOUNT| == 20 && |FUNDING_FEE_AMOUNT_PER_SIZE| == 27
  {
  }

  ghost predicate Rebuilds(k: Key, s: Scope) {
    && Shaped(Tag(k), s.args)
    && Rebuild(Tag(k), s) == k
    && (Tag(k) > 1 ==> |s.name| == Tag(k))
    && (Tag(k) == 21 ==> s.name == MIN_COLLATERAL_FACTOR)
    && (Tag(k) == 22 ==> s.name == LIQUIDATION_FEE_FACTOR)
  }

  lemma ScopeRebuilds(k: Key)
    ensures Rebuilds(k, ScopeOf(k))
  {
    NameLengths();
  }

  lemma WordsDetermineArgs(a: seq<Arg>, b: seq<Arg>)
    requires |a| == |b| && Words(a) == Words(b)
    requires forall i :: 0 <= i < |a| ==> (a[i].Flag? <==> b[i].Flag?)
    ensures a == b
  {
    forall i | 0 <= i < |a|
      ensures a[i] == b[i]
    {
      assert Words(a)[i] == Words(b)[i];
      if a[i].Addr? {
        AddressWordInjective(a[i].a, b[i].a);
      } else {
        BoolWordInjective(a[i].b, b[i].b);
      }
    }
  }

  lemma CellRebuilds(k: Key, s: Scope, l: Key, t: Scope)
    requires Rebuilds(k, s) && Rebuilds(l, t) && SameCell(s, t)
    ensures k == l || Aliases(k, l) || Aliases(l, k)
  {
    assert |s.args| == |Words(s.args)| == |t.args|;
    WordsDetermineArgs(s.args, t.args);
  }

  /** Name and argument words give back the constructor and all its arguments, but for that one alias. */
  lemma CellDeterminesKey(k: Key, l: Key)
    ensures SameCell(ScopeOf(k), ScopeOf(l)) <==> k == l || Aliases(k, l) || Aliases(l, k)
  {
    if SameCell(ScopeOf(k), ScopeOf(l)) {
      ScopeRebuilds(k);
      ScopeRebuilds(l);
      CellRebuilds(k, ScopeOf(k), l, ScopeOf(l));
    } else if Aliases(k, l) {
      AliasSharesScope(k, l);
    } else if Aliases(l, k) {
      AliasSharesScope(l, k);
    }
  }

  lemma AliasSharesScope(k: Key, l: Key)
    requires Aliases(k, l)
    ensures ScopeOf(k) == ScopeOf(l)
  {
  }
}

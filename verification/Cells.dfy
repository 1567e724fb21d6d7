/** Key derivation and wire together: a DataStore written cell by cell reads back cell by cell. */
module Cells {
  import opened Bytes
  import opened Wrappers
  import opened Keys
  import opened Client
  import opened Server

  datatype Write<V> = Write(key: Key, value: V)

  /** One of the contract's mappings after a sequence of writes, each under the hash of its key. */
  function Storage<V>(H: HashFn, writes: seq<Write<V>>): map<Word, V> {
    if writes == [] then map[] else
      var last := writes[|writes| - 1];
      Storage(H, writes[..|writes| - 1])[KeyOf(H, last.key) := last.value]
  }

  ghost predicate SameCall(k: Key, l: Key) {
    k == l || Aliases(k, l) || Aliases(l, k)
  }

  /** The value last written by the same constructor call, with no hashing involved. */
  ghost function LastWritten<V>(writes: seq<Write<V>>, k: Key, zero: V): V {
    if writes == [] then zero else
      var last := writes[|writes| - 1];
      if SameCall(k, last.key) then last.value else LastWritten(writes[..|writes| - 1], k, zero)
  }

  /** The hash tells k from every key that is written, unless they mean the same cell. */
  ghost predicate HashSeparates<V>(H: HashFn, k: Key, writes: seq<Write<V>>) {
    && |ScopeOf(k).name| < TWO_63
    && forall i :: 0 <= i < |writes| ==>
      |ScopeOf(writes[i].key).name| < TWO_63 && !HashFails(H, ScopeOf(k), ScopeOf(writes[i].key))
  }

  lemma {:induction false} StorageReadsBack<V>(H: HashFn, writes: seq<Write<V>>, k: Key, zero: V)
    requires HashSeparates(H, k, writes)
    ensures Stored(Storage(H, writes), KeyOf(H, k), zero) == LastWritten(writes, k, zero)
  {
    if writes != [] {
      var init, last := writes[..|writes| - 1], writes[|writes| - 1];
      StorageReadsBack(H, init, k, zero);
      EqualKeys(H, k, last.key);
    }
  }

  /**
    Reading a key through constructor, calldata, hex, server and reply decoding returns what was last written there,
    for each of the three value types, as long as the hash tells that key from the keys that were written.
   */
  lemma WireReadsLastWrite(H: HashFn, c: Chain, world: World, ds: Address, k: Key,
                           uints: seq<Write<uint256>>, ints: seq<Write<int256>>, bools: seq<Write<bool>>)
    requires HashSeparates(H, k, uints) && HashSeparates(H, k, ints) && HashSeparates(H, k, bools)
    requires Serves(c, world) && SelectorsDiffer(c.sel) && ds in world && world[ds].DataStore?
    requires world[ds].uints == Storage(H, uints) && world[ds].ints == Storage(H, ints)
        && world[ds].bools == Storage(H, bools)
    ensures UintAt(c, ds, KeyOf(H, k)) == Ok(LastWritten(uints, k, 0))
    ensures IntAt(c, ds, KeyOf(H, k)) == Ok(LastWritten(ints, k, 0))
    ensures BoolAt(c, ds, KeyOf(H, k)) == Ok(LastWritten(bools, k, false))
  {
    StorageReadsBack(H, uints, k, 0);
    StorageReadsBack(H, ints, k, 0);
    StorageReadsBack(H, bools, k, false);
    DataStoreReadsAgree(c, world, ds, KeyOf(H, k));
  }
}

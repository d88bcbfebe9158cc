/** The in-memory stores as objects; every method is proved against `StoreSpec`. */
module Store {
  import opened Prelude
  import opened StoreSpec

  /** The smallest block number of a nonempty index. */
  method FirstBlock(s: set<nat>) returns (m: nat)
    requires s != {}
    ensures m == Oldest(s)
  {
    m :| m in s;
    var todo := s - {m};
    while todo != {}
      invariant todo <= s && m in s
      invariant forall x :: x in s && x !in todo ==> m <= x
    {
      var x :| x in todo;
      if x < m {
        m := x;
      }
      todo := todo - {x};
    }
    assert IsLeast(m, s);
  }

  class HashedPlainRecordsStorage<K(==,!new), D> {
    const maxBlocks: nat
    var lastBlock: Option<nat>
    var ephemeralRecords: map<nat, set<K>>
    var directRecords: map<K, StorageEntry<D>>

    ghost function View(): PlainStore<K, D>
      reads this
    {
      PlainStore(maxBlocks, lastBlock, ephemeralRecords, directRecords)
    }

    constructor (maxBlocks: nat)
      ensures View() == PlainStore(maxBlocks, None, map[], map[])
    {
      this.maxBlocks := maxBlocks;
      lastBlock, ephemeralRecords, directRecords := None, map[], map[];
    }

    method Insert(key: K, entry: StorageEntry<D>) returns (r: Result<()>)
      modifies this
      ensures View() == InsertPlain(old(View()), key, entry)
      ensures r.Ok? <==> key !in old(directRecords)
    {
      if key in directRecords {
        return Err;
      }
      var block := entry.time.blockNumber;
      lastBlock := Some(block);
      directRecords := directRecords[key := entry];
      if !entry.recordType.Persistent? {
        ephemeralRecords := AddKey(ephemeralRecords, block, key);
      }
      Prune();
      r := Ok(());
    }

    method Replace(key: K, entry: StorageEntry<D>) returns (r: Option<StorageEntry<D>>)
      modifies this
      ensures View() == ReplacePlain(old(View()), key, entry)
      ensures r == if key in old(directRecords) then Some(old(directRecords)[key]) else None
    {
      if key !in directRecords {
        return None;
      }
      r := Some(directRecords[key]);
      directRecords := directRecords[key := entry];
    }

    method Prune()
      modifies this
      ensures View() == PrunePlain(old(View()))
    {
      if |ephemeralRecords| > maxBlocks {
        var oldest := FirstBlock(ephemeralRecords.Keys);
        var todo := ephemeralRecords[oldest];
        ghost var was := directRecords;
        while todo != {}
          invariant ephemeralRecords == old(ephemeralRecords)
          invariant todo <= ephemeralRecords[oldest]
          invariant directRecords == was - (ephemeralRecords[oldest] - todo) && lastBlock == old(lastBlock)
        {
          var key :| key in todo;
          directRecords := directRecords - {key};
          todo := todo - {key};
        }
        ephemeralRecords := ephemeralRecords - {oldest};
      }
    }

    method Get(key: K) returns (r: Option<StorageEntry<D>>)
      ensures r == if key in directRecords then Some(directRecords[key]) else None
    {
      r := if key in directRecords then Some(directRecords[key]) else None;
    }

    method Delete(key: K) returns (r: Option<StorageEntry<D>>)
      modifies this
      ensures View() == DeletePlain(old(View()), key)
      ensures r == if key in old(directRecords) then Some(old(directRecords)[key]) else None
    {
      r := if key in directRecords then Some(directRecords[key]) else None;
      directRecords := directRecords - {key};
    }
  }

  class HashedPrefixedRecordsStorage<K(==,!new), P(==,!new), D> {
    const maxBlocks: nat
    var lastBlock: Option<nat>
    var ephemeralRecords: map<nat, set<K>>
    var prefixedRecords: map<P, map<K, StorageEntry<D>>>

    ghost function View(): PrefixedStore<K, P, D>
      reads this
    {
      PrefixedStore(maxBlocks, lastBlock, ephemeralRecords, prefixedRecords)
    }

    constructor (maxBlocks: nat)
      ensures View() == PrefixedStore(maxBlocks, None, map[], map[])
    {
      this.maxBlocks := maxBlocks;
      lastBlock, ephemeralRecords, prefixedRecords := None, map[], map[];
    }

    method InsertPrefix(prefix: P, key: K, entry: StorageEntry<D>) returns (r: Result<()>)
      modifies this
      ensures View() == StoreSpec.InsertPrefix(old(View()), prefix, key, entry)
      ensures r.Ok? <==> !Stored(old(prefixedRecords), prefix, key)
    {
      if Stored(prefixedRecords, prefix, key) {
        return Err;
      }
      var block := entry.time.blockNumber;
      lastBlock := Some(block);
      prefixedRecords := prefixedRecords[prefix := PrefixRecords(prefixedRecords, prefix)[key := entry]];
      ephemeralRecords := AddKey(ephemeralRecords, block, key);
      Prune();
      r := Ok(());
    }

    method ReplacePrefixed(prefix: P, key: K, entry: StorageEntry<D>) returns (r: Option<StorageEntry<D>>)
      modifies this
      ensures View() == StoreSpec.ReplacePrefixed(old(View()), prefix, key, entry)
      ensures r == StoreSpec.GetPrefix(old(View()), prefix, key)
    {
      if !Stored(prefixedRecords, prefix, key) {
        return None;
      }
      r := Some(prefixedRecords[prefix][key]);
      prefixedRecords := prefixedRecords[prefix := prefixedRecords[prefix][key := entry]];
    }

    method Prune()
      modifies this
      ensures View() == StoreSpec.Prune(old(View()))
    {
      if |ephemeralRecords| > maxBlocks {
        var oldest := FirstBlock(ephemeralRecords.Keys);
        var todo := prefixedRecords.Keys;
        ghost var was := prefixedRecords;
        while todo != {}
          invariant todo <= was.Keys == prefixedRecords.Keys && ephemeralRecords == old(ephemeralRecords)
          invariant lastBlock == old(lastBlock)
          invariant forall p :: p in was ==>
            prefixedRecords[p] == if p in todo then was[p] else was[p] - ephemeralRecords[oldest]
        {
          var p :| p in todo;
          prefixedRecords := prefixedRecords[p := prefixedRecords[p] - ephemeralRecords[oldest]];
          todo := todo - {p};
        }
        assert prefixedRecords == Without(was, ephemeralRecords[oldest]);
        ephemeralRecords := ephemeralRecords - {oldest};
      }
    }

    method GetPrefix(prefix: P, key: K) returns (r: Option<StorageEntry<D>>)
      ensures r == StoreSpec.GetPrefix(View(), prefix, key)
    {
      r := if Stored(prefixedRecords, prefix, key) then Some(prefixedRecords[prefix][key]) else None;
    }

    method DeletePrefix(prefix: P, key: K) returns (r: Option<StorageEntry<D>>)
      modifies this
      ensures View() == StoreSpec.DeletePrefix(old(View()), prefix, key)
      ensures r == StoreSpec.GetPrefix(old(View()), prefix, key)
    {
      if prefix !in prefixedRecords {
        return None;
      }
      r := if key in prefixedRecords[prefix] then Some(prefixedRecords[prefix][key]) else None;
      prefixedRecords := prefixedRecords[prefix := prefixedRecords[prefix] - {key}];
    }

    /** A prefix that holds `key`, the first one the map yields. */
    method FindPrefix(key: K) returns (prefix: Option<P>)
      ensures prefix.Some? ==> Stored(prefixedRecords, prefix.value, key)
      ensures prefix.None? ==> forall p :: !Stored(prefixedRecords, p, key)
    {
      var todo := prefixedRecords.Keys;
      while todo != {}
        invariant todo <= prefixedRecords.Keys
        invariant forall p :: p in prefixedRecords.Keys - todo ==> key !in prefixedRecords[p]
      {
        var p :| p in todo;
        if key in prefixedRecords[p] {
          return Some(p);
        }
        todo := todo - {p};
      }
      return None;
    }

    /** Without a prefix an operation acts on one prefix that holds the key, or fails. */
    method Replace(key: K, entry: StorageEntry<D>) returns (r: Option<StorageEntry<D>>)
      modifies this
      ensures r.None? ==> View() == old(View()) && forall p :: !Stored(old(prefixedRecords), p, key)
      ensures r.Some? ==> exists p ::
        (Stored(old(prefixedRecords), p, key) && r.value == old(prefixedRecords)[p][key] &&
         View() == StoreSpec.ReplacePrefixed(old(View()), p, key, entry))
    {
      var found := FindPrefix(key);
      if found.None? {
        return None;
      }
      r := ReplacePrefixed(found.value, key, entry);
    }

    method Get(key: K) returns (r: Option<StorageEntry<D>>)
      ensures r.None? ==> forall p :: !Stored(prefixedRecords, p, key)
      ensures r.Some? ==> exists p :: Stored(prefixedRecords, p, key) && r.value == prefixedRecords[p][key]
    {
      var found := FindPrefix(key);
      r := if found.None? then None else Some(prefixedRecords[found.value][key]);
    }

    method Delete(key: K) returns (r: Option<StorageEntry<D>>)
      modifies this
      ensures r.None? ==> View() == old(View()) && forall p :: !Stored(old(prefixedRecords), p, key)
      ensures r.Some? ==> exists p ::
        (Stored(old(prefixedRecords), p, key) && r.value == old(prefixedRecords)[p][key] &&
         View() == StoreSpec.DeletePrefix(old(View()), p, key))
    {
      var found := FindPrefix(key);
      if found.None? {
        return None;
      }
      r := DeletePrefix(found.value, key);
    }
  }
}

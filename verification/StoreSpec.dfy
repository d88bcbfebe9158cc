/** The two expiring stores as values: records plus an index from block number to the keys written there. */
module StoreSpec {
  import opened Prelude

  datatype RecordType = Onchain | Offchain | Persistent
  datatype RecordTime = RecordTime(blockNumber: nat, timestamp: Option<nat>)
  datatype StorageEntry<D> = StorageEntry(recordType: RecordType, time: RecordTime, data: D)

  type Index<K(!new)> = map<nat, set<K>>

  predicate IsLeast(m: nat, s: set<nat>) { m in s && forall x :: x in s ==> m <= x }

  /** The first key of the ordered index. */
  ghost function Oldest(s: set<nat>): (m: nat)
    requires s != {}
    ensures IsLeast(m, s)
  {
    LeastExists(s);
    var m :| IsLeast(m, s);
    m
  }

  lemma {:induction false} LeastExists(s: set<nat>)
    requires s != {}
    ensures exists m :: IsLeast(m, s)
    decreases |s|
  {
    var x :| x in s;
    if s == {x} {
      assert IsLeast(x, s);
    } else {
      LeastExists(s - {x});
      var m :| IsLeast(m, s - {x});
      var least := if m < x then m else x;
      forall y | y in s
        ensures least <= y
      {
        assert y == x || y in s - {x};
      }
      assert IsLeast(least, s);
    }
  }

  function AddKey<K(!new)>(index: Index<K>, block: nat, k: K): Index<K> {
    index[block := (if block in index then index[block] else {}) + {k}]
  }

  /*** Records grouped by prefix ***/

  type Records<K, P, D> = map<P, map<K, StorageEntry<D>>>

  datatype PrefixedStore<K(!new), P, D> = PrefixedStore(
    maxBlocks: nat, lastBlock: Option<nat>, index: Index<K>, records: Records<K, P, D>)

  predicate Stored<K, P, D>(records: Records<K, P, D>, p: P, k: K) { p in records && k in records[p] }

  /** Removes the keys of one bucket from every prefix. */
  function Without<K, P, D>(records: Records<K, P, D>, keys: set<K>): Records<K, P, D> {
    map p | p in records :: records[p] - keys
  }

  ghost function Prune<K(!new), P, D>(s: PrefixedStore<K, P, D>): PrefixedStore<K, P, D> {
    if |s.index| > s.maxBlocks then
      var oldest := Oldest(s.index.Keys);
      s.(index := s.index - {oldest}, records := Without(s.records, s.index[oldest]))
    else s
  }

  function PrefixRecords<K, P, D>(records: Records<K, P, D>, p: P): map<K, StorageEntry<D>> {
    if p in records then records[p] else map[]
  }

  ghost function InsertPrefix<K(!new), P, D>(s: PrefixedStore<K, P, D>, p: P, k: K, e: StorageEntry<D>):
    PrefixedStore<K, P, D>
  {
    if Stored(s.records, p, k) then s
    else
      var block := e.time.blockNumber;
      Prune(s.(lastBlock := Some(block), index := AddKey(s.index, block, k),
               records := s.records[p := PrefixRecords(s.records, p)[k := e]]))
  }

  function ReplacePrefixed<K(!new), P, D>(s: PrefixedStore<K, P, D>, p: P, k: K, e: StorageEntry<D>):
    PrefixedStore<K, P, D>
  {
    if Stored(s.records, p, k) then s.(records := s.records[p := s.records[p][k := e]]) else s
  }

  function DeletePrefix<K(!new), P, D>(s: PrefixedStore<K, P, D>, p: P, k: K): PrefixedStore<K, P, D> {
    if p in s.records then s.(records := s.records[p := s.records[p] - {k}]) else s
  }

  function GetPrefix<K(!new), P, D>(s: PrefixedStore<K, P, D>, p: P, k: K): Option<StorageEntry<D>> {
    if Stored(s.records, p, k) then Some(s.records[p][k]) else None
  }

  /*** Records without prefixes ***/

  datatype PlainStore<K(!new), D> = PlainStore(
    maxBlocks: nat, lastBlock: Option<nat>, index: Index<K>, records: map<K, StorageEntry<D>>)

  ghost function PrunePlain<K(!new), D>(s: PlainStore<K, D>): PlainStore<K, D> {
    if |s.index| > s.maxBlocks then
      var oldest := Oldest(s.index.Keys);
      s.(index := s.index - {oldest}, records := s.records - s.index[oldest])
    else s
  }

  ghost function InsertPlain<K(!new), D>(s: PlainStore<K, D>, k: K, e: StorageEntry<D>): PlainStore<K, D> {
    if k in s.records then s
    else
      var block := e.time.blockNumber;
      PrunePlain(s.(lastBlock := Some(block), records := s.records[k := e],
                    index := if e.recordType.Persistent? then s.index else AddKey(s.index, block, k)))
  }

  function ReplacePlain<K(!new), D>(s: PlainStore<K, D>, k: K, e: StorageEntry<D>): PlainStore<K, D> {
    if k in s.records then s.(records := s.records[k := e]) else s
  }

  function DeletePlain<K(!new), D>(s: PlainStore<K, D>, k: K): PlainStore<K, D> {
    s.(records := s.records - {k})
  }
}

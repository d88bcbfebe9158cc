/** Runs of the prefixed store: any interleaving of inserts, replacements and deletions. */
module StoreRuns {
  import opened Prelude
  import opened StoreSpec

  /*** The newest n of a set of block numbers ***/

  ghost predicate Newest(top: set<nat>, all: set<nat>, n: nat) {
    && top <= all
    && |top| == (if |all| < n then |all| else n)
    && forall a, b :: a in top && b in all && b !in top ==> b < a
  }

  lemma SameSizeSubset(a: set<nat>, b: set<nat>)
    requires a <= b && |a| == |b|
    ensures a == b
  {
    if x :| x in b && x !in a {
      SubsetSize(a, b - {x});
      assert false;
    }
  }

  lemma {:induction false} SubsetSize(a: set<nat>, b: set<nat>)
    requires a <= b
    ensures |a| <= |b|
    decreases |a|
  {
    if x :| x in a {
      SubsetSize(a - {x}, b - {x});
    }
  }

  /** The index keys after one more block number was added and the oldest one pruned if there are too many. */
  ghost function Trim(keys: set<nat>, n: nat): set<nat> {
    if |keys| > n then keys - {Oldest(keys)} else keys
  }

  /** Adding and trimming keeps the newest n; a block that had been evicted never stays. */
  lemma NewestStep(top: set<nat>, all: set<nat>, n: nat, b: nat)
    requires Newest(top, all, n)
    ensures Newest(Trim(top + {b}, n), all + {b}, n)
    ensures b in all && b !in top ==> |top + {b}| > n && Oldest(top + {b}) == b
  {
    var grown := top + {b};
    if b in top {
      assert grown == top && all + {b} == all;
    } else if b in all {
      assert all + {b} == all;
      if |top| == |all| {
        SameSizeSubset(top, all);
        assert false;
      }
      assert |grown| == n + 1;
      assert forall x :: x in grown ==> b <= x;
      assert grown - {b} == top;
    } else {
      if |top| == |all| {
        SameSizeSubset(top, all);
      }
      assert |all + {b}| == |all| + 1 && |grown| == |top| + 1;
    }
  }

  /*** Runs ***/

  datatype Op<K, P, D> =
    | Insert(p: P, k: K, e: StorageEntry<D>)
    | Replace(p: P, k: K, e: StorageEntry<D>)
    | Delete(p: P, k: K)

  ghost function Apply<K(!new), P, D>(s: PrefixedStore<K, P, D>, op: Op<K, P, D>): PrefixedStore<K, P, D> {
    match op
    case Insert(p, k, e) => InsertPrefix(s, p, k, e)
    case Replace(p, k, e) => ReplacePrefixed(s, p, k, e)
    case Delete(p, k) => DeletePrefix(s, p, k)
  }

  ghost function Run<K(!new), P, D>(maxBlocks: nat, ops: seq<Op<K, P, D>>): PrefixedStore<K, P, D> {
    if ops == [] then PrefixedStore(maxBlocks, None, map[], map[])
    else Apply(Run(maxBlocks, Front(ops)), Last(ops))
  }

  /** One successful insert. */
  datatype Write<K, P> = Write(p: P, k: K, block: nat)

  ghost predicate Succeeds<K(!new), P, D>(s: PrefixedStore<K, P, D>, op: Op<K, P, D>) {
    op.Insert? && !Stored(s.records, op.p, op.k)
  }

  ghost function Writes<K(!new), P, D>(maxBlocks: nat, ops: seq<Op<K, P, D>>): seq<Write<K, P>> {
    if ops == [] then []
    else if Succeeds(Run(maxBlocks, Front(ops)), Last(ops))
    then Writes(maxBlocks, Front(ops)) + [Write(Last(ops).p, Last(ops).k, Last(ops).e.time.blockNumber)]
    else Writes(maxBlocks, Front(ops))
  }

  ghost function Blocks<K, P>(ws: seq<Write<K, P>>): set<nat> { set w | w in ws :: w.block }

  ghost predicate WrittenUnder<K, P>(ws: seq<Write<K, P>>, k: K, block: nat) {
    exists w :: w in ws && w.k == k && w.block == block
  }

  /** The index holds the newest blocks ever written, each with exactly the keys written under it. */
  ghost predicate IndexIs<K(!new), P>(index: Index<K>, ws: seq<Write<K, P>>, n: nat) {
    && Newest(index.Keys, Blocks(ws), n)
    && forall b, k :: b in index ==> (k in index[b] <==> WrittenUnder(ws, k, b))
  }

  ghost function TrimIndex<K(!new)>(index: Index<K>, n: nat): Index<K> {
    if |index| > n then index - {Oldest(index.Keys)} else index
  }

  lemma IndexStep<K(!new), P>(index: Index<K>, ws: seq<Write<K, P>>, n: nat, w: Write<K, P>)
    requires IndexIs(index, ws, n)
    ensures IndexIs(TrimIndex(AddKey(index, w.block, w.k), n), ws + [w], n)
  {
    var trimmed := TrimIndex(AddKey(index, w.block, w.k), n);
    IndexKeysStep(index, ws, n, w);
    forall b, k | b in trimmed
      ensures k in trimmed[b] <==> WrittenUnder(ws + [w], k, b)
    {
      WrittenStep(ws, w, k, b);
    }
  }

  lemma IndexKeysStep<K(!new), P>(index: Index<K>, ws: seq<Write<K, P>>, n: nat, w: Write<K, P>)
    requires IndexIs(index, ws, n)
    ensures var trimmed := TrimIndex(AddKey(index, w.block, w.k), n);
            && Newest(trimmed.Keys, Blocks(ws + [w]), n)
            && (w.block in trimmed && w.block !in index ==> w.block !in Blocks(ws))
  {
    BlocksSnoc(ws, w);
    NewestStep(index.Keys, Blocks(ws), n, w.block);
    TrimmedKeys(index, w.block, w.k, n);
  }

  lemma TrimmedKeys<K(!new)>(index: Index<K>, block: nat, k: K, n: nat)
    ensures AddKey(index, block, k).Keys == index.Keys + {block}
    ensures |AddKey(index, block, k)| == |index.Keys + {block}|
    ensures TrimIndex(AddKey(index, block, k), n).Keys == Trim(index.Keys + {block}, n)
  {
    var grown := AddKey(index, block, k);
    assert grown.Keys == index.Keys + {block} && |grown| == |grown.Keys|;
  }

  lemma PutEffect<K(!new), P(!new), D>(records: Records<K, P, D>, p0: P, k0: K, e: StorageEntry<D>, p: P, k: K)
    ensures var put := records[p0 := PrefixRecords(records, p0)[k0 := e]];
            && (Stored(put, p, k) <==> Stored(records, p, k) || (p == p0 && k == k0))
            && (Stored(put, p, k) ==> put[p][k] == if p == p0 && k == k0 then e else records[p][k])
  {
  }

  ghost predicate Pruned<K(!new)>(index: Index<K>, n: nat, k: K) {
    |index| > n && k in index[Oldest(index.Keys)]
  }

  lemma PruneEffect<K(!new), P(!new), D>(s: PrefixedStore<K, P, D>, p: P, k: K)
    ensures Prune(s) == s.(index := TrimIndex(s.index, s.maxBlocks), records := Prune(s).records)
    ensures Stored(Prune(s).records, p, k) <==> Stored(s.records, p, k) && !Pruned(s.index, s.maxBlocks, k)
    ensures Stored(Prune(s).records, p, k) ==> Prune(s).records[p][k] == s.records[p][k]
  {
  }

  /** What a successful insert does: the new record joins, then one whole bucket may leave. */
  lemma InsertEffect<K(!new), P(!new), D>(s: PrefixedStore<K, P, D>, op: Op<K, P, D>, p: P, k: K)
    requires Succeeds(s, op)
    ensures var grown := AddKey(s.index, op.e.time.blockNumber, op.k);
            && Apply(s, op) == s.(lastBlock := Some(op.e.time.blockNumber), index := TrimIndex(grown, s.maxBlocks),
                                  records := Apply(s, op).records)
            && (Stored(Apply(s, op).records, p, k) <==>
                (Stored(s.records, p, k) || (p == op.p && k == op.k)) && !Pruned(grown, s.maxBlocks, k))
            && (Stored(Apply(s, op).records, p, k) ==>
                Apply(s, op).records[p][k] == if p == op.p && k == op.k then op.e else s.records[p][k])
  {
    var block := op.e.time.blockNumber;
    PutEffect(s.records, op.p, op.k, op.e, p, k);
    PruneEffect(s.(lastBlock := Some(block), index := AddKey(s.index, block, op.k),
                   records := s.records[op.p := PrefixRecords(s.records, op.p)[op.k := op.e]]), p, k);
  }

  lemma BlocksSnoc<K, P>(ws: seq<Write<K, P>>, w: Write<K, P>)
    ensures Blocks(ws + [w]) == Blocks(ws) + {w.block}
  {
    assert forall x :: x in ws + [w] <==> x in ws || x == w;
    assert w in ws + [w];
  }

  lemma WrittenStep<K, P>(ws: seq<Write<K, P>>, w: Write<K, P>, k: K, block: nat)
    ensures WrittenUnder(ws + [w], k, block) <==> WrittenUnder(ws, k, block) || (w.k == k && w.block == block)
    ensures WrittenUnder(ws, k, block) ==> block in Blocks(ws)
  {
    assert w in ws + [w];
    if WrittenUnder(ws, k, block) {
      var x :| x in ws && x.k == k && x.block == block;
      assert x in ws + [w];
    }
  }

  /**
   Top-k refinement: after any run, deletions included, the index is exactly the `maxBlocks` largest
   block numbers ever inserted successfully, each with the keys inserted under it.
   */
  lemma {:induction false} IndexRefinesTopK<K(!new), P, D>(maxBlocks: nat, ops: seq<Op<K, P, D>>)
    ensures IndexIs(Run(maxBlocks, ops).index, Writes(maxBlocks, ops), maxBlocks)
    ensures Run(maxBlocks, ops).maxBlocks == maxBlocks
  {
    if ops != [] {
      var s, op := Run(maxBlocks, Front(ops)), Last(ops);
      IndexRefinesTopK(maxBlocks, Front(ops));
      if Succeeds(s, op) {
        IndexStep(s.index, Writes(maxBlocks, Front(ops)), maxBlocks, Write(op.p, op.k, op.e.time.blockNumber));
      }
    }
  }

  /** The written blocks within `n` of the highest one: those the documentation of `prune` promises to keep. */
  function Near(all: set<nat>, n: nat, highest: nat): set<nat> { set b | b in all && highest < b + n }

  lemma NewestIsNear(top: set<nat>, all: set<nat>, n: nat, highest: nat)
    requires Newest(top, all, n)
    ensures top == Near(all, n, highest) <==> |Near(all, n, highest)| == |top|
  {
    var near := Near(all, n, highest);
    if |near| == |top| {
      if a :| a in near && a !in top {
        assert top <= near;
        SameSizeSubset(top, near);
        assert false;
      }
      SameSizeSubset(near, top);
    }
  }

  /**
   The documented rule, pruning by distance from the newest block, describes the index of a run exactly
   when as many written blocks lie within that distance as the index can hold.
   */
  lemma DistanceRuleExactly<K(!new), P, D>(maxBlocks: nat, ops: seq<Op<K, P, D>>, highest: nat)
    ensures var all := Blocks(Writes(maxBlocks, ops));
            (forall b :: b in all ==> (b in Run(maxBlocks, ops).index <==> highest < b + maxBlocks)) <==>
            |Near(all, maxBlocks, highest)| == if |all| < maxBlocks then |all| else maxBlocks
  {
    var all, top := Blocks(Writes(maxBlocks, ops)), Run(maxBlocks, ops).index.Keys;
    IndexRefinesTopK(maxBlocks, ops);
    NewestIsNear(top, all, maxBlocks, highest);
    hide Run, Writes;
    if forall b :: b in all ==> (b in top <==> highest < b + maxBlocks) {
      assert top == Near(all, maxBlocks, highest);
    }
  }

  ghost predicate InSomeBucket<K(!new)>(index: Index<K>, k: K) { exists b :: b in index && k in index[b] }

  ghost predicate AllIndexed<K(!new), P(!new), D>(s: PrefixedStore<K, P, D>) {
    forall p, k :: Stored(s.records, p, k) ==> InSomeBucket(s.index, k)
  }

  /** Every stored key lies in some live bucket, in every run. */
  lemma {:induction false} StoredKeysAreIndexed<K(!new), P(!new), D>(maxBlocks: nat, ops: seq<Op<K, P, D>>)
    ensures AllIndexed(Run(maxBlocks, ops))
  {
    if ops != [] {
      var s, op := Run(maxBlocks, Front(ops)), Last(ops);
      StoredKeysAreIndexed(maxBlocks, Front(ops));
      if Succeeds(s, op) {
        var block := op.e.time.blockNumber;
        var s1 := s.(lastBlock := Some(block), index := AddKey(s.index, block, op.k),
                     records := s.records[op.p := PrefixRecords(s.records, op.p)[op.k := op.e]]);
        forall p, k | Stored(s1.records, p, k)
          ensures InSomeBucket(s1.index, k)
        {
          if p == op.p && k == op.k {
            assert block in s1.index && k in s1.index[block];
          } else {
            assert Stored(s.records, p, k);
            var b :| b in s.index && k in s.index[b];
            assert b in s1.index && k in s1.index[b];
          }
        }
        PruneKeepsIndexed(s1);
      } else {
        forall p, k | Stored(Run(maxBlocks, ops).records, p, k)
          ensures Stored(s.records, p, k)
        {
        }
      }
    }
  }

  lemma PruneKeepsIndexed<K(!new), P(!new), D>(s: PrefixedStore<K, P, D>)
    requires AllIndexed(s)
    ensures AllIndexed(Prune(s))
  {
    var s' := Prune(s);
    forall p, k | Stored(s'.records, p, k)
      ensures InSomeBucket(s'.index, k)
    {
      assert Stored(s.records, p, k);
      var b :| b in s.index && k in s.index[b];
      assert p in s'.records && k in s'.records[p];
      assert b in s'.index && k in s'.index[b];
    }
  }

  /*** Replacements ***/

  function WithoutReplace<K, P, D>(ops: seq<Op<K, P, D>>): seq<Op<K, P, D>> {
    if ops == [] then []
    else if Last(ops).Replace? then WithoutReplace(Front(ops))
    else WithoutReplace(Front(ops)) + [Last(ops)]
  }

  ghost predicate SameSkeleton<K(!new), P(!new), D>(a: PrefixedStore<K, P, D>, b: PrefixedStore<K, P, D>) {
    && a.index == b.index && a.maxBlocks == b.maxBlocks && a.records.Keys == b.records.Keys
    && forall p :: p in a.records ==> a.records[p].Keys == b.records[p].Keys
  }

  /** Replacements never change a lifetime: erasing them from a run leaves the same keys and the same index. */
  lemma {:induction false} ReplaceKeepsLifetimes<K(!new), P(!new), D>(maxBlocks: nat, ops: seq<Op<K, P, D>>)
    ensures SameSkeleton(Run(maxBlocks, ops), Run(maxBlocks, WithoutReplace(ops)))
  {
    if ops != [] {
      ReplaceKeepsLifetimes(maxBlocks, Front(ops));
      var a, b := Run(maxBlocks, Front(ops)), Run(maxBlocks, WithoutReplace(Front(ops)));
      if !Last(ops).Replace? {
        assert Front(WithoutReplace(ops)) == WithoutReplace(Front(ops));
        SkeletonStep(a, b, Last(ops));
      }
    }
  }

  lemma SkeletonStep<K(!new), P(!new), D>(a: PrefixedStore<K, P, D>, b: PrefixedStore<K, P, D>, op: Op<K, P, D>)
    requires SameSkeleton(a, b)
    ensures SameSkeleton(Apply(a, op), Apply(b, op))
  {
    if op.Insert? && !Stored(a.records, op.p, op.k) {
      var block := op.e.time.blockNumber;
      PruneSkeleton(
        a.(lastBlock := Some(block), index := AddKey(a.index, block, op.k),
           records := a.records[op.p := PrefixRecords(a.records, op.p)[op.k := op.e]]),
        b.(lastBlock := Some(block), index := AddKey(b.index, block, op.k),
           records := b.records[op.p := PrefixRecords(b.records, op.p)[op.k := op.e]]));
    }
  }

  lemma PruneSkeleton<K(!new), P(!new), D>(a: PrefixedStore<K, P, D>, b: PrefixedStore<K, P, D>)
    requires SameSkeleton(a, b)
    ensures SameSkeleton(Prune(a), Prune(b))
  {
  }
}

/** Runs of the plain store: when its index and its records agree. */
module PlainRuns {
  import opened Prelude
  import opened StoreSpec
  import opened StoreRuns

  datatype PlainOp<K, D> =
    | InsertKey(k: K, e: StorageEntry<D>)
    | ReplaceKey(k: K, e: StorageEntry<D>)
    | DeleteKey(k: K)

  ghost function ApplyPlain<K(!new), D>(s: PlainStore<K, D>, op: PlainOp<K, D>): PlainStore<K, D> {
    match op
    case InsertKey(k, e) => InsertPlain(s, k, e)
    case ReplaceKey(k, e) => ReplacePlain(s, k, e)
    case DeleteKey(k) => DeletePlain(s, k)
  }

  ghost function RunPlain<K(!new), D>(maxBlocks: nat, ops: seq<PlainOp<K, D>>): PlainStore<K, D> {
    if ops == [] then PlainStore(maxBlocks, None, map[], map[])
    else ApplyPlain(RunPlain(maxBlocks, Front(ops)), Last(ops))
  }

  predicate Ephemeral<K(!new), D>(s: PlainStore<K, D>, k: K) {
    k in s.records && !s.records[k].recordType.Persistent?
  }

  ghost predicate Disjoint<K(!new)>(index: Index<K>) {
    forall a, b, k :: a in index && b in index && k in index[a] && k in index[b] ==> a == b
  }

  /** The buckets are disjoint and together hold exactly the stored keys that can expire. */
  ghost predicate Agree<K(!new), D>(s: PlainStore<K, D>) {
    && |s.index| <= s.maxBlocks
    && Disjoint(s.index)
    && forall k :: InSomeBucket(s.index, k) <==> Ephemeral(s, k)
  }

  /** The only operations that can break the agreement. */
  predicate Breaks<K(!new), D>(s: PlainStore<K, D>, op: PlainOp<K, D>) {
    match op
    case InsertKey(_, _) => false
    case ReplaceKey(k, e) =>
      k in s.records && (s.records[k].recordType.Persistent? != e.recordType.Persistent?)
    case DeleteKey(k) => Ephemeral(s, k)
  }

  lemma InsertAgrees<K(!new), D>(s: PlainStore<K, D>, k: K, e: StorageEntry<D>)
    requires Agree(s)
    ensures Agree(InsertPlain(s, k, e))
  {
    if k !in s.records {
      var b := e.time.blockNumber;
      var s1 := s.(lastBlock := Some(b), records := s.records[k := e],
                   index := if e.recordType.Persistent? then s.index else AddKey(s.index, b, k));
      assert !Ephemeral(s, k) && !InSomeBucket(s.index, k);
      GrownAgrees(s, k, e, s1);
      PruneAgrees(s1);
    }
  }

  /** Agreement up to one bucket too many. */
  ghost predicate AgreeButFull<K(!new), D>(s: PlainStore<K, D>) {
    && |s.index| <= s.maxBlocks + 1
    && Disjoint(s.index)
    && forall k :: InSomeBucket(s.index, k) <==> Ephemeral(s, k)
  }

  lemma GrownAgrees<K(!new), D>(s: PlainStore<K, D>, k: K, e: StorageEntry<D>, s1: PlainStore<K, D>)
    requires Agree(s) && k !in s.records && !InSomeBucket(s.index, k)
    requires s1.records == s.records[k := e] && s1.maxBlocks == s.maxBlocks
    requires s1.index == if e.recordType.Persistent? then s.index else AddKey(s.index, e.time.blockNumber, k)
    ensures AgreeButFull(s1)
  {
    var b := e.time.blockNumber;
    TrimmedKeys(s.index, b, k, s.maxBlocks);
    assert |s.index.Keys + {b}| <= |s.index.Keys| + 1 && |s.index.Keys| == |s.index|;
    forall x
      ensures InSomeBucket(s1.index, x) <==> Ephemeral(s1, x)
    {
      if x == k {
        if Ephemeral(s1, k) {
          assert b in s1.index && k in s1.index[b];
        }
      } else {
        assert Ephemeral(s1, x) <==> Ephemeral(s, x);
        if InSomeBucket(s.index, x) {
          var a :| a in s.index && x in s.index[a];
          assert a in s1.index && x in s1.index[a];
        }
      }
    }
  }

  /** With disjoint buckets, dropping one removes exactly its keys. */
  lemma BucketsWithout<K(!new)>(index: Index<K>, oldest: nat, x: K)
    requires Disjoint(index) && oldest in index
    ensures InSomeBucket(index - {oldest}, x) <==> InSomeBucket(index, x) && x !in index[oldest]
  {
    if InSomeBucket(index, x) && x !in index[oldest] {
      var a :| a in index && x in index[a];
      assert a in index - {oldest} && x in (index - {oldest})[a];
    }
    if InSomeBucket(index - {oldest}, x) {
      var a :| a in index - {oldest} && x in (index - {oldest})[a];
      assert a in index && x in index[a];
    }
  }

  lemma PruneAgrees<K(!new), D>(s: PlainStore<K, D>)
    requires AgreeButFull(s)
    ensures Agree(PrunePlain(s))
  {
    var s' := PrunePlain(s);
    if |s.index| > s.maxBlocks {
      var oldest := Oldest(s.index.Keys);
      assert s'.index.Keys == s.index.Keys - {oldest} && |s'.index| == |s'.index.Keys|;
      forall x
        ensures InSomeBucket(s'.index, x) <==> Ephemeral(s', x)
      {
        BucketsWithout(s.index, oldest, x);
      }
    }
  }

  /** Exactly the operations in `Breaks` destroy the agreement of index and records. */
  lemma AgreementStep<K(!new), D>(s: PlainStore<K, D>, op: PlainOp<K, D>)
    requires Agree(s)
    ensures Agree(ApplyPlain(s, op)) <==> !Breaks(s, op)
  {
    var s' := ApplyPlain(s, op);
    match op
    case InsertKey(k, e) => InsertAgrees(s, k, e);
    case ReplaceKey(k, e) =>
      if k in s.records {
        assert Ephemeral(s, k) <==> InSomeBucket(s'.index, k);
        assert forall x :: x != k ==> (Ephemeral(s', x) <==> Ephemeral(s, x));
      }
    case DeleteKey(k) =>
      assert Ephemeral(s, k) <==> InSomeBucket(s'.index, k);
      assert forall x :: x != k ==> (Ephemeral(s', x) <==> Ephemeral(s, x));
  }

  /** It does break: deleting any expiring record that was just inserted leaves its key in a bucket. */
  lemma DeleteLeavesItsKey<K(!new), D>(maxBlocks: nat, k: K, e: StorageEntry<D>)
    requires maxBlocks > 0 && !e.recordType.Persistent?
    ensures Agree(RunPlain(maxBlocks, [InsertKey(k, e)]))
    ensures !Agree(RunPlain(maxBlocks, [InsertKey(k, e), DeleteKey(k)]))
  {
    var o1, o2: PlainOp<K, D> := InsertKey(k, e), DeleteKey(k);
    assert Front([o1]) == [] && Front([o1, o2]) == [o1];
    var s: PlainStore<K, D> := RunPlain(maxBlocks, []);
    assert forall x :: !InSomeBucket(s.index, x);
    AgreementStep(s, o1);
    var grown := AddKey(s.index, e.time.blockNumber, k);
    assert grown.Keys == {e.time.blockNumber} && |grown| == |grown.Keys|;
    assert RunPlain(maxBlocks, [o1]).records == map[k := e];
    AgreementStep(RunPlain(maxBlocks, [o1]), o2);
  }

  /** A run none of whose operations breaks the agreement; every delete-free run that keeps record types is one. */
  ghost predicate Clean<K(!new), D>(maxBlocks: nat, ops: seq<PlainOp<K, D>>) {
    ops != [] ==> Clean(maxBlocks, Front(ops)) && !Breaks(RunPlain(maxBlocks, Front(ops)), Last(ops))
  }

  lemma {:induction false} PlainStoreAgrees<K(!new), D>(maxBlocks: nat, ops: seq<PlainOp<K, D>>)
    requires Clean(maxBlocks, ops)
    ensures Agree(RunPlain(maxBlocks, ops))
  {
    if ops == [] {
      var s: PlainStore<K, D> := RunPlain(maxBlocks, ops);
      assert forall k :: !InSomeBucket(s.index, k);
    } else {
      PlainStoreAgrees(maxBlocks, Front(ops));
      AgreementStep(RunPlain(maxBlocks, Front(ops)), Last(ops));
    }
  }

  predicate Persists<K(!new), D>(s: PlainStore<K, D>, k: K) { k in s.records && s.records[k].recordType.Persistent? }

  /** A successful insert of a persistent record under `k`. */
  predicate InsertsPersistent<K(!new), D>(s: PlainStore<K, D>, op: PlainOp<K, D>, k: K) {
    op.InsertKey? && op.k == k && k !in s.records && op.e.recordType.Persistent?
  }

  /** A persistent record is never pruned: once inserted it is readable until it is deleted. */
  lemma {:induction false} PersistentRecordsStay<K(!new), D>(maxBlocks: nat, ops: seq<PlainOp<K, D>>, i: nat, k: K)
    requires Clean(maxBlocks, ops) && i < |ops| && InsertsPersistent(RunPlain(maxBlocks, ops[..i]), ops[i], k)
    requires forall j :: i < j < |ops| ==> ops[j] != DeleteKey(k)
    ensures Persists(RunPlain(maxBlocks, ops), k)
  {
    CleanStep(maxBlocks, ops);
    hide RunPlain, ApplyPlain, Clean, Breaks, Agree, Persists, InsertsPersistent;
    if i == |ops| - 1 {
      assert ops[..i] == Front(ops);
    } else {
      assert Front(ops)[..i] == ops[..i] && Front(ops)[i] == ops[i];
      assert forall j :: i < j < |Front(ops)| ==> Front(ops)[j] == ops[j];
      PersistentRecordsStay(maxBlocks, Front(ops), i, k);
      assert Last(ops) == ops[|ops| - 1];
    }
    StaysPersistent(RunPlain(maxBlocks, Front(ops)), Last(ops), k);
  }

  lemma CleanStep<K(!new), D>(maxBlocks: nat, ops: seq<PlainOp<K, D>>)
    requires Clean(maxBlocks, ops) && ops != []
    ensures Clean(maxBlocks, Front(ops)) && Agree(RunPlain(maxBlocks, Front(ops)))
    ensures !Breaks(RunPlain(maxBlocks, Front(ops)), Last(ops))
    ensures RunPlain(maxBlocks, ops) == ApplyPlain(RunPlain(maxBlocks, Front(ops)), Last(ops))
  {
    PlainStoreAgrees(maxBlocks, Front(ops));
  }

  lemma StaysPersistent<K(!new), D>(s: PlainStore<K, D>, op: PlainOp<K, D>, k: K)
    requires Agree(s) && !Breaks(s, op)
    requires InsertsPersistent(s, op, k) || (Persists(s, k) && op != DeleteKey(k))
    ensures Persists(ApplyPlain(s, op), k)
  {
    NotPruned(s, op, k);
  }

  lemma NotPruned<K(!new), D>(s: PlainStore<K, D>, op: PlainOp<K, D>, k: K)
    requires Agree(s) && !Breaks(s, op) && op != DeleteKey(k)
    requires if k in s.records then s.records[k].recordType.Persistent?
             else op.InsertKey? && op.k == k && op.e.recordType.Persistent?
    ensures k in ApplyPlain(s, op).records && ApplyPlain(s, op).records[k].recordType.Persistent?
  {
    assert !Ephemeral(s, k) && !InSomeBucket(s.index, k);
    if op.InsertKey? && op.k !in s.records {
      var b := op.e.time.blockNumber;
      var grown := if op.e.recordType.Persistent? then s.index else AddKey(s.index, b, op.k);
      forall a | a in grown
        ensures k !in grown[a]
      {
        assert a in s.index ==> k !in s.index[a];
      }
    }
  }
}

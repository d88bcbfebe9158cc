/** What the two stores answer: the value of the last write that counted. */
module StoreValues {
  import opened Prelude
  import opened StoreSpec
  import opened StoreRuns
  import opened PlainRuns

  /*** Records grouped by prefix ***/

  /** An insert counts when the record is not there, a replacement when it is. */
  ghost predicate Sets<K(!new), X, D>(s: PrefixedStore<K, X, D>, op: Op<K, X, D>, p: X, k: K) {
    match op
    case Insert(q, j, _) => q == p && j == k && !Stored(s.records, p, k)
    case Replace(q, j, _) => q == p && j == k && Stored(s.records, p, k)
    case Delete(_, _) => false
  }

  /** The last write to the record that counted; the record has been there ever since. */
  ghost predicate LastSet<K(!new), X(!new), D>(n: nat, ops: seq<Op<K, X, D>>, p: X, k: K, i: nat) {
    && i < |ops| && Sets(Run(n, ops[..i]), ops[i], p, k)
    && forall j :: i < j < |ops| ==> Stored(Run(n, ops[..j]).records, p, k) && !Sets(Run(n, ops[..j]), ops[j], p, k)
  }

  lemma ValueStep<K(!new), X(!new), D>(s: PrefixedStore<K, X, D>, op: Op<K, X, D>, p: X, k: K)
    requires Stored(Apply(s, op).records, p, k)
    ensures if Sets(s, op, p, k) then !op.Delete? && Apply(s, op).records[p][k] == op.e
            else Stored(s.records, p, k) && Apply(s, op).records[p][k] == s.records[p][k]
  {
    if Succeeds(s, op) {
      InsertEffect(s, op, p, k);
    }
  }

  /** A stored record holds the entry of the last write to it that counted. */
  lemma {:induction false} ReadsLastWrite<K(!new), X(!new), D>(n: nat, ops: seq<Op<K, X, D>>, p: X, k: K)
    returns (i: nat)
    requires Stored(Run(n, ops).records, p, k)
    ensures LastSet(n, ops, p, k, i) && !ops[i].Delete? && Run(n, ops).records[p][k] == ops[i].e
  {
    assert ops != [];
    var s, op := Run(n, Front(ops)), Last(ops);
    assert ops[..|ops| - 1] == Front(ops);
    ValueStep(s, op, p, k);
    hide Apply, Sets;
    if Sets(s, op, p, k) {
      i := |ops| - 1;
    } else {
      i := ReadsLastWrite(n, Front(ops), p, k);
      SetStays(n, ops, p, k, i);
    }
  }

  lemma SetStays<K(!new), X(!new), D>(n: nat, ops: seq<Op<K, X, D>>, p: X, k: K, i: nat)
    requires ops != [] && LastSet(n, Front(ops), p, k, i)
    requires Stored(Run(n, Front(ops)).records, p, k) && !Sets(Run(n, Front(ops)), Last(ops), p, k)
    ensures LastSet(n, ops, p, k, i) && ops[i] == Front(ops)[i]
  {
    hide Sets, Run, Stored;
    assert ops[..|ops| - 1] == Front(ops) && Front(ops)[..i] == ops[..i];
    forall j | i < j < |ops|
      ensures Stored(Run(n, ops[..j]).records, p, k) && !Sets(Run(n, ops[..j]), ops[j], p, k)
    {
      assert j < |ops| - 1 ==> Front(ops)[..j] == ops[..j] && Front(ops)[j] == ops[j];
    }
  }

  /** The last block is that of the last successful insert. */
  lemma {:induction false} LastBlockIs<K(!new), X, D>(n: nat, ops: seq<Op<K, X, D>>)
    ensures Run(n, ops).lastBlock == if Writes(n, ops) == [] then None else Some(Last(Writes(n, ops)).block)
  {
    if ops != [] {
      LastBlockIs(n, Front(ops));
    }
  }

  /*** Records without prefixes ***/

  ghost predicate Files<K(!new), D>(s: PlainStore<K, D>, op: PlainOp<K, D>) {
    op.InsertKey? && op.k !in s.records && !op.e.recordType.Persistent?
  }

  /** The successful inserts of records that can expire. */
  ghost function PlainWrites<K(!new), D>(n: nat, ops: seq<PlainOp<K, D>>): seq<Write<K, ()>> {
    if ops == [] then []
    else if Files(RunPlain(n, Front(ops)), Last(ops))
    then PlainWrites(n, Front(ops)) + [Write((), Last(ops).k, Last(ops).e.time.blockNumber)]
    else PlainWrites(n, Front(ops))
  }

  lemma PrunePlainEffect<K(!new), D>(s: PlainStore<K, D>, k: K)
    ensures PrunePlain(s) == s.(index := TrimIndex(s.index, s.maxBlocks), records := PrunePlain(s).records)
    ensures k in PrunePlain(s).records <==> k in s.records && !Pruned(s.index, s.maxBlocks, k)
    ensures k in PrunePlain(s).records ==> PrunePlain(s).records[k] == s.records[k]
  {
  }

  /** The record joins, is filed unless it persists, and then one bucket may leave. */
  lemma InsertPlainEffect<K(!new), D>(s: PlainStore<K, D>, op: PlainOp<K, D>, k: K)
    requires op.InsertKey? && op.k !in s.records && |s.index| <= s.maxBlocks
    ensures var grown, s' := AddKey(s.index, op.e.time.blockNumber, op.k), ApplyPlain(s, op);
            && s'.maxBlocks == s.maxBlocks
            && s'.index == (if Files(s, op) then TrimIndex(grown, s.maxBlocks) else s.index)
            && (k in s'.records <==>
                (k in s.records || k == op.k) && !(Files(s, op) && Pruned(grown, s.maxBlocks, k)))
            && (k in s'.records ==> s'.records[k] == if k == op.k then op.e else s.records[k])
  {
    var grown := s.(lastBlock := Some(op.e.time.blockNumber), records := s.records[op.k := op.e],
                    index := if op.e.recordType.Persistent? then s.index
                             else AddKey(s.index, op.e.time.blockNumber, op.k));
    PrunePlainEffect(grown, k);
    assert ApplyPlain(s, op) == PrunePlain(grown);
    hide PrunePlain, AddKey, ApplyPlain;
  }

  lemma PlainIndexStep<K(!new), D>(s: PlainStore<K, D>, op: PlainOp<K, D>)
    requires |s.index| <= s.maxBlocks
    ensures ApplyPlain(s, op).maxBlocks == s.maxBlocks
    ensures ApplyPlain(s, op).index ==
            if Files(s, op) then TrimIndex(AddKey(s.index, op.e.time.blockNumber, op.k), s.maxBlocks) else s.index
  {
    if op.InsertKey? && op.k !in s.records {
      InsertPlainEffect(s, op, op.k);
      hide ApplyPlain;
    }
  }

  lemma IndexFits<K(!new), P>(index: Index<K>, ws: seq<Write<K, P>>, n: nat)
    requires IndexIs(index, ws, n)
    ensures |index| <= n
  {
    assert |index| == |index.Keys|;
  }

  /** The index of the plain store, too, is the newest blocks written, with the keys written under each. */
  lemma {:induction false} PlainIndexRefinesTopK<K(!new), D>(n: nat, ops: seq<PlainOp<K, D>>)
    ensures IndexIs(RunPlain(n, ops).index, PlainWrites(n, ops), n) && RunPlain(n, ops).maxBlocks == n
  {
    if ops != [] {
      var s, op := RunPlain(n, Front(ops)), Last(ops);
      PlainIndexRefinesTopK(n, Front(ops));
      IndexFits(s.index, PlainWrites(n, Front(ops)), n);
      PlainIndexStep(s, op);
      hide ApplyPlain, IndexIs;
      if Files(s, op) {
        IndexStep(s.index, PlainWrites(n, Front(ops)), n, Write((), op.k, op.e.time.blockNumber));
      }
    }
  }

  ghost predicate SetsPlain<K(!new), D>(s: PlainStore<K, D>, op: PlainOp<K, D>, k: K) {
    match op
    case InsertKey(j, _) => j == k && k !in s.records
    case ReplaceKey(j, _) => j == k && k in s.records
    case DeleteKey(_) => false
  }

  /** One operation on the plain store, seen from one key: who is there afterwards, and with which entry. */
  lemma PlainStepExactly<K(!new), D>(s: PlainStore<K, D>, op: PlainOp<K, D>, k: K)
    requires |s.index| <= s.maxBlocks
    ensures var s' := ApplyPlain(s, op);
            && (k in s'.records <==>
                && (k in s.records || SetsPlain(s, op, k)) && op != DeleteKey(k)
                && !(Files(s, op) && Pruned(AddKey(s.index, op.e.time.blockNumber, op.k), s.maxBlocks, k)))
            && (k in s'.records ==>
                if SetsPlain(s, op, k) then !op.DeleteKey? && s'.records[k] == op.e else s'.records[k] == s.records[k])
  {
    if op.InsertKey? && op.k !in s.records {
      InsertPlainEffect(s, op, k);
      hide ApplyPlain;
    }
  }

  ghost predicate LastSetPlain<K(!new), D>(n: nat, ops: seq<PlainOp<K, D>>, k: K, i: nat) {
    && i < |ops| && SetsPlain(RunPlain(n, ops[..i]), ops[i], k)
    && forall j :: i < j < |ops| ==> k in RunPlain(n, ops[..j]).records && !SetsPlain(RunPlain(n, ops[..j]), ops[j], k)
  }

  lemma {:induction false} PlainReadsLastWrite<K(!new), D>(n: nat, ops: seq<PlainOp<K, D>>, k: K) returns (i: nat)
    requires k in RunPlain(n, ops).records
    ensures LastSetPlain(n, ops, k, i) && !ops[i].DeleteKey? && RunPlain(n, ops).records[k] == ops[i].e
  {
    assert ops != [];
    var s, op := RunPlain(n, Front(ops)), Last(ops);
    assert ops[..|ops| - 1] == Front(ops);
    PlainIndexRefinesTopK(n, Front(ops));
    IndexFits(s.index, PlainWrites(n, Front(ops)), n);
    PlainStepExactly(s, op, k);
    hide ApplyPlain, SetsPlain, IndexIs;
    if SetsPlain(s, op, k) {
      i := |ops| - 1;
    } else {
      i := PlainReadsLastWrite(n, Front(ops), k);
      PlainSetStays(n, ops, k, i);
    }
  }

  lemma PlainSetStays<K(!new), D>(n: nat, ops: seq<PlainOp<K, D>>, k: K, i: nat)
    requires ops != [] && LastSetPlain(n, Front(ops), k, i)
    requires k in RunPlain(n, Front(ops)).records && !SetsPlain(RunPlain(n, Front(ops)), Last(ops), k)
    ensures LastSetPlain(n, ops, k, i) && ops[i] == Front(ops)[i]
  {
    hide SetsPlain, RunPlain;
    assert ops[..|ops| - 1] == Front(ops) && Front(ops)[..i] == ops[..i];
    forall j | i < j < |ops|
      ensures k in RunPlain(n, ops[..j]).records && !SetsPlain(RunPlain(n, ops[..j]), ops[j], k)
    {
      assert j < |ops| - 1 ==> Front(ops)[..j] == ops[..j] && Front(ops)[j] == ops[j];
    }
  }
}

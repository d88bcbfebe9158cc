/** How long a record of the prefixed store is readable, in any run. */
module Lifetimes {
  import opened Prelude
  import opened StoreSpec
  import opened StoreRuns

  ghost predicate WritesRecord<K(!new), P, D>(s: PrefixedStore<K, P, D>, op: Op<K, P, D>, p: P, k: K) {
    Succeeds(s, op) && op.p == p && op.k == k
  }

  /** Operation `i` is the last successful write of `k` under `p`, and no later operation deletes that record. */
  ghost predicate LastWrite<K(!new), P, D>(n: nat, ops: seq<Op<K, P, D>>, i: nat, p: P, k: K)
    requires i < |ops|
  {
    if i == |ops| - 1 then WritesRecord(Run(n, Front(ops)), Last(ops), p, k)
    else
      && LastWrite(n, Front(ops), i, p, k)
      && !WritesRecord(Run(n, Front(ops)), Last(ops), p, k)
      && Last(ops) != Delete(p, k)
  }

  /**
   The blocks the key is filed under: the live buckets that held it just before write `i`, the block of
   that write, and the blocks of all later successful writes of the key, under any prefix.
   */
  ghost function Filed<K(!new), P, D>(n: nat, ops: seq<Op<K, P, D>>, i: nat, k: K): set<nat>
    requires i < |ops|
  {
    var s := Run(n, Front(ops));
    var before := if i == |ops| - 1 then FiledNow(s.index, k) else Filed(n, Front(ops), i, k);
    FiledAfter(s, Last(ops), before, k)
  }

  ghost function FiledNow<K(!new)>(index: Index<K>, k: K): set<nat> { set b | b in index && k in index[b] }

  ghost function FiledAfter<K(!new), P, D>(s: PrefixedStore<K, P, D>, op: Op<K, P, D>, filed: set<nat>, k: K): set<nat>
  {
    if Succeeds(s, op) && op.k == k then filed + {op.e.time.blockNumber} else filed
  }

  /** Why a filed block matters: it was written, and while it is live its bucket holds the key. */
  ghost predicate FiledIn<K(!new)>(filed: set<nat>, index: Index<K>, all: set<nat>, k: K) {
    filed <= all && forall b :: b in index ==> (k in index[b] <==> b in filed)
  }

  /**
   One successful insert of `k0` under block `b`, seen from key `k`: its filed blocks are all live
   afterwards exactly when they were before and the insert does not evict a bucket that holds it.
   */
  lemma FiledStep<K(!new)>(index: Index<K>, all: set<nat>, n: nat, b: nat, k0: K, filed: set<nat>, k: K)
    requires Newest(index.Keys, all, n) && FiledIn(filed, index, all, k)
    ensures var grown := AddKey(index, b, k0);
            var filed' := if k0 == k then filed + {b} else filed;
            && FiledIn(filed', TrimIndex(grown, n), all + {b}, k)
            && (filed' <= TrimIndex(grown, n).Keys <==> filed <= index.Keys && !Pruned(grown, n, k))
  {
    var grown := AddKey(index, b, k0);
    var filed' := if k0 == k then filed + {b} else filed;
    var after := TrimIndex(grown, n);
    NewestStep(index.Keys, all, n, b);
    TrimmedKeys(index, b, k0, n);
    forall c | c in after
      ensures k in after[c] <==> c in filed'
    {
      assert c == b && c !in index ==> c !in all;
    }
    if |grown| > n {
      var oldest := Oldest(grown.Keys);
      assert after.Keys == grown.Keys - {oldest};
      if oldest in all && oldest !in index {
        assert oldest == b;
      } else {
        assert k in grown[oldest] <==> oldest in filed';
      }
    }
  }

  lemma StoredStep<K(!new), P(!new), D>(s: PrefixedStore<K, P, D>, op: Op<K, P, D>, ws: seq<Write<K, P>>,
                                        filed: set<nat>, p: P, k: K)
    requires IndexIs(s.index, ws, s.maxBlocks) && FiledIn(filed, s.index, Blocks(ws), k)
    requires Succeeds(s, op)
    requires (if WritesRecord(s, op, p, k) then true else Stored(s.records, p, k)) <==> filed <= s.index.Keys
    ensures var s', filed' := Apply(s, op), FiledAfter(s, op, filed, k);
            && FiledIn(filed', s'.index, Blocks(ws + [Write(op.p, op.k, op.e.time.blockNumber)]), k)
            && (Stored(s'.records, p, k) <==> filed' <= s'.index.Keys)
  {
    var b := op.e.time.blockNumber;
    FiledStep(s.index, Blocks(ws), s.maxBlocks, b, op.k, filed, k);
    BlocksSnoc(ws, Write(op.p, op.k, b));
    InsertEffect(s, op, p, k);
  }

  /**
   The lifetime law, in any run, deletions and shared keys included: a record is readable exactly while
   every block its key is filed under is live.  The record type plays no part: persistent records expire too.
   */
  lemma {:induction false} ReadableExactly<K(!new), P(!new), D>(n: nat, ops: seq<Op<K, P, D>>, i: nat, p: P, k: K)
    requires i < |ops| && LastWrite(n, ops, i, p, k)
    ensures FiledIn(Filed(n, ops, i, k), Run(n, ops).index, Blocks(Writes(n, ops)), k)
    ensures Stored(Run(n, ops).records, p, k) <==> Filed(n, ops, i, k) <= Run(n, ops).index.Keys
  {
    var s, op, ws := Run(n, Front(ops)), Last(ops), Writes(n, Front(ops));
    IndexRefinesTopK(n, Front(ops));
    var filed := if i == |ops| - 1 then FiledNow(s.index, k) else Filed(n, Front(ops), i, k);
    if i < |ops| - 1 {
      ReadableExactly(n, Front(ops), i, p, k);
    }
    if Succeeds(s, op) {
      StoredStep(s, op, ws, filed, p, k);
    }
  }

  /** Every readable record has such a write, so the law decides every key of every run. */
  lemma {:induction false} StoredWasWritten<K(!new), P(!new), D>(n: nat, ops: seq<Op<K, P, D>>, p: P, k: K)
    returns (i: nat)
    requires Stored(Run(n, ops).records, p, k)
    ensures i < |ops| && LastWrite(n, ops, i, p, k)
  {
    var s, op := Run(n, Front(ops)), Last(ops);
    if WritesRecord(s, op, p, k) {
      i := |ops| - 1;
    } else {
      if Succeeds(s, op) {
        InsertEffect(s, op, p, k);
      }
      i := StoredWasWritten(n, Front(ops), p, k);
    }
  }

  /** A key is readable exactly when it was written, not deleted since, and all its filed blocks are live. */
  lemma ReadableIff<K(!new), P(!new), D>(n: nat, ops: seq<Op<K, P, D>>, p: P, k: K)
    ensures Stored(Run(n, ops).records, p, k) <==>
            exists i: nat :: i < |ops| && LastWrite(n, ops, i, p, k) && Filed(n, ops, i, k) <= Run(n, ops).index.Keys
  {
    if Stored(Run(n, ops).records, p, k) {
      var i := StoredWasWritten(n, ops, p, k);
      ReadableExactly(n, ops, i, p, k);
    }
    forall i: nat | i < |ops| && LastWrite(n, ops, i, p, k)
      ensures Stored(Run(n, ops).records, p, k) <==> Filed(n, ops, i, k) <= Run(n, ops).index.Keys
    {
      ReadableExactly(n, ops, i, p, k);
    }
  }

  /*** Keys written under one block only ***/

  ghost predicate OnlyUnder<K, P>(ws: seq<Write<K, P>>, k: K, block: nat) {
    forall w :: w in ws && w.k == k ==> w.block == block
  }

  lemma {:induction false} FiledWasWritten<K(!new), P(!new), D>(n: nat, ops: seq<Op<K, P, D>>, i: nat, p: P, k: K,
                                                                c: nat)
    requires i < |ops| && LastWrite(n, ops, i, p, k) && c in Filed(n, ops, i, k)
    ensures WrittenUnder(Writes(n, ops), k, c)
  {
    var s, op, ws := Run(n, Front(ops)), Last(ops), Writes(n, Front(ops));
    IndexRefinesTopK(n, Front(ops));
    if Succeeds(s, op) {
      WrittenStep(ws, Write(op.p, op.k, op.e.time.blockNumber), k, c);
    }
    if i < |ops| - 1 && c in Filed(n, Front(ops), i, k) {
      FiledWasWritten(n, Front(ops), i, p, k, c);
    }
  }

  lemma {:induction false} FiledHasOwnBlock<K(!new), P(!new), D>(n: nat, ops: seq<Op<K, P, D>>, i: nat, p: P, k: K)
    requires i < |ops| && LastWrite(n, ops, i, p, k)
    ensures ops[i].Insert? && ops[i].k == k && ops[i].e.time.blockNumber in Filed(n, ops, i, k)
  {
    if i < |ops| - 1 {
      FiledHasOwnBlock(n, Front(ops), i, p, k);
    }
  }

  /** A key only ever written under one block is readable exactly while that block is one of the newest. */
  lemma LivesWithItsOnlyBlock<K(!new), P(!new), D>(n: nat, ops: seq<Op<K, P, D>>, i: nat, p: P, k: K, block: nat)
    requires i < |ops| && LastWrite(n, ops, i, p, k)
    ensures OnlyUnder(Writes(n, ops), k, block) ==>
              (Stored(Run(n, ops).records, p, k) <==> block in Run(n, ops).index)
  {
    if OnlyUnder(Writes(n, ops), k, block) {
      FiledHasOwnBlock(n, ops, i, p, k);
      forall c | c in Filed(n, ops, i, k)
        ensures c == block
      {
        FiledWasWritten(n, ops, i, p, k, c);
      }
      ReadableExactly(n, ops, i, p, k);
    }
  }

  predicate DeleteFree<K, P, D>(ops: seq<Op<K, P, D>>) {
    forall i :: 0 <= i < |ops| ==> !ops[i].Delete?
  }

  lemma {:induction false} WrittenOnce<K(!new), P(!new), D>(n: nat, ops: seq<Op<K, P, D>>, p: P, k: K, block: nat)
    returns (i: nat)
    requires DeleteFree(ops) && Write(p, k, block) in Writes(n, ops)
    ensures i < |ops| && LastWrite(n, ops, i, p, k)
  {
    if WritesRecord(Run(n, Front(ops)), Last(ops), p, k) {
      i := |ops| - 1;
    } else {
      i := WrittenOnce(n, Front(ops), p, k, block);
    }
  }

  /** The law for runs without deletions: the block's place among the newest decides. */
  lemma ReadableWhileNewest<K(!new), P(!new), D>(maxBlocks: nat, ops: seq<Op<K, P, D>>, p: P, k: K, block: nat)
    requires DeleteFree(ops)
    requires OnlyUnder(Writes(maxBlocks, ops), k, block)
    requires Write(p, k, block) in Writes(maxBlocks, ops)
    ensures Stored(Run(maxBlocks, ops).records, p, k) <==> block in Run(maxBlocks, ops).index
  {
    var i := WrittenOnce(maxBlocks, ops, p, k, block);
    LivesWithItsOnlyBlock(maxBlocks, ops, i, p, k, block);
  }

  /*** When a record lives exactly as long as its own block ***/

  /** From here on the key is not written and the record not deleted. */
  ghost predicate Quiet<K, P, D>(more: seq<Op<K, P, D>>, p: P, k: K) {
    forall op :: op in more ==> (op.Insert? ==> op.k != k) && (op.Delete? ==> op.p != p || op.k != k)
  }

  lemma QuietStep<K(!new), P(!new), D>(n: nat, ops: seq<Op<K, P, D>>, i: nat, p: P, k: K)
    requires i < |ops| - 1 && LastWrite(n, Front(ops), i, p, k)
    requires Quiet([Last(ops)], p, k)
    ensures LastWrite(n, ops, i, p, k) && Filed(n, ops, i, k) == Filed(n, Front(ops), i, k)
  {
    hide Run;
    assert Last(ops) in [Last(ops)];
  }

  lemma {:induction false} QuietKeepsFiled<K(!new), P(!new), D>(n: nat, ops: seq<Op<K, P, D>>, more: seq<Op<K, P, D>>,
                                                                i: nat, p: P, k: K)
    requires i < |ops| && LastWrite(n, ops, i, p, k) && Quiet(more, p, k)
    ensures LastWrite(n, ops + more, i, p, k) && Filed(n, ops + more, i, k) == Filed(n, ops, i, k)
  {
    hide Run, LastWrite, Filed;
    if more == [] {
      assert ops + more == ops;
    } else {
      assert Front(ops + more) == ops + Front(more) && Last(ops + more) == Last(more);
      assert forall op :: op in Front(more) || op == Last(more) ==> op in more;
      QuietKeepsFiled(n, ops, Front(more), i, p, k);
      QuietStep(n, ops + more, i, p, k);
    }
  }

  function Round<K, P, D>(p: P, x: K, e: StorageEntry<D>): seq<Op<K, P, D>> { [Delete(p, x), Insert(p, x, e)] }

  lemma RoundIsQuiet<K(!new), P(!new), D>(p: P, k: K, x: K, e: StorageEntry<D>)
    requires x != k
    ensures Quiet(Round(p, x, e), p, k)
  {
  }

  /** Rewriting another key under a new block drives the index one block further. */
  lemma RoundAdvances<K(!new), P(!new), D>(n: nat, ops: seq<Op<K, P, D>>, p: P, x: K, e: StorageEntry<D>)
    requires e.time.blockNumber !in Run(n, ops).index
    ensures Run(n, ops + Round(p, x, e)).index.Keys == Trim(Run(n, ops).index.Keys + {e.time.blockNumber}, n)
  {
    var deleted := ops + [Delete(p, x)];
    assert Front(deleted) == ops && ops + Round(p, x, e) == deleted + [Insert(p, x, e)];
    assert Front(deleted + [Insert(p, x, e)]) == deleted;
    IndexRefinesTopK(n, deleted);
    InsertEffect(Run(n, deleted), Insert(p, x, e), p, x);
    TrimmedKeys(Run(n, ops).index, e.time.blockNumber, x, n);
  }

  lemma {:induction false} AboveAll(s: set<nat>) returns (m: nat)
    ensures forall b :: b in s ==> b < m
    decreases |s|
  {
    m := 0;
    if x :| x in s {
      m := AboveAll(s - {x});
      m := if m <= x then x + 1 else m;
      assert forall b :: b in s ==> b == x || b in s - {x};
    }
  }

  function Below(keys: set<nat>, c: nat): set<nat> { set b | b in keys && b < c }

  lemma QuietConcat<K, P, D>(a: seq<Op<K, P, D>>, b: seq<Op<K, P, D>>, p: P, k: K)
    requires Quiet(a, p, k) && Quiet(b, p, k)
    ensures Quiet(a + b, p, k)
  {
  }

  lemma DriveOne(keys: set<nat>, n: nat, b: nat, c: nat, block: nat)
    requires c in keys && block in keys && c < block && |keys| <= n
    requires forall a :: a in keys ==> a < b
    ensures var keys' := Trim(keys + {b}, n);
            && block in keys' && |keys'| <= n
            && (c in keys' ==> n - |keys'| + |Below(keys', c)| < n - |keys| + |Below(keys, c)|)
  {
    var grown := keys + {b};
    var keys' := Trim(grown, n);
    assert |grown| == |keys| + 1;
    if |keys| < n {
      assert Below(keys', c) == Below(keys, c);
    } else {
      var oldest := Oldest(grown);
      if c in keys' {
        assert oldest < c && Below(keys', c) == Below(keys, c) - {oldest};
        assert oldest in Below(keys, c);
      }
    }
  }

  ghost predicate Driving<K(!new), P, D>(n: nat, ops: seq<Op<K, P, D>>, c: nat, block: nat) {
    var keys := Run(n, ops).index.Keys;
    c in keys && block in keys && c < block && |keys| <= n
  }

  /** How many more blocks it takes until `c` is evicted. */
  ghost function Distance<K(!new), P, D>(n: nat, ops: seq<Op<K, P, D>>, c: nat): int {
    var keys := Run(n, ops).index.Keys;
    n - |keys| + |Below(keys, c)|
  }

  lemma DriveOnce<K(!new), P(!new), D>(n: nat, ops: seq<Op<K, P, D>>, c: nat, block: nat, p: P, k: K, x: K, d: D)
    returns (round: seq<Op<K, P, D>>)
    requires Driving(n, ops, c, block) && x != k
    ensures Quiet(round, p, k) && block in Run(n, ops + round).index
    ensures c in Run(n, ops + round).index ==>
              Driving(n, ops + round, c, block) && Distance(n, ops + round, c) < Distance(n, ops, c)
    ensures Distance(n, ops, c) >= 0
  {
    var keys := Run(n, ops).index.Keys;
    var b := AboveAll(keys);
    var e: StorageEntry<D> := StorageEntry(Onchain, RecordTime(b, None), d);
    round := Round(p, x, e);
    RoundAdvances(n, ops, p, x, e);
    RoundIsQuiet(p, k, x, e);
    hide Run, Trim, Below, Round, Quiet;
    DriveOne(keys, n, b, c, block);
  }

  /** A live block can always be driven out, by rewriting another key, while a newer one stays. */
  lemma {:induction false} DriveOut<K(!new), P(!new), D>(n: nat, ops: seq<Op<K, P, D>>, c: nat, block: nat, p: P, k: K,
                                                         x: K, d: D)
    returns (more: seq<Op<K, P, D>>)
    requires Driving(n, ops, c, block) && x != k
    ensures Quiet(more, p, k)
    ensures c !in Run(n, ops + more).index && block in Run(n, ops + more).index
    decreases Distance(n, ops, c)
  {
    hide *;
    var round := DriveOnce(n, ops, c, block, p, k, x, d);
    more := round;
    if c in Run(n, ops + round).index {
      var rest := DriveOut(n, ops + round, c, block, p, k, x, d);
      QuietConcat(round, rest, p, k);
      more := round + rest;
      assert ops + more == (ops + round) + rest;
    }
  }

  /** Whatever happens to other keys from now on, the record is readable exactly while `block` is live. */
  ghost predicate LivesWith<K(!new), P(!new), D(!new)>(n: nat, ops: seq<Op<K, P, D>>, p: P, k: K, block: nat) {
    forall more: seq<Op<K, P, D>> :: Quiet(more, p, k) ==>
      (Stored(Run(n, ops + more).records, p, k) <==> block in Run(n, ops + more).index)
  }

  /**
   A record whose block is live will live exactly as long as that block if and only if its key is filed
   under no smaller block.
   */
  lemma LivesWithItsBlockExactly<K(!new), P(!new), D(!new)>(n: nat, ops: seq<Op<K, P, D>>, i: nat, p: P, k: K, x: K)
    requires i < |ops| && LastWrite(n, ops, i, p, k) && ops[i].Insert? && x != k
    requires ops[i].e.time.blockNumber in Run(n, ops).index
    ensures var block := ops[i].e.time.blockNumber;
            LivesWith(n, ops, p, k, block) <==> forall c :: c in Filed(n, ops, i, k) ==> block <= c
  {
    var block := ops[i].e.time.blockNumber;
    if c :| c in Filed(n, ops, i, k) && c < block {
      var more := OutlivedByItsBlock(n, ops, i, p, k, x, c);
      assert Quiet(more, p, k);
    } else {
      forall more: seq<Op<K, P, D>> | Quiet(more, p, k)
        ensures Stored(Run(n, ops + more).records, p, k) <==> block in Run(n, ops + more).index
      {
        FollowsItsBlock(n, ops, more, i, p, k);
      }
    }
  }

  lemma OutlivedByItsBlock<K(!new), P(!new), D>(n: nat, ops: seq<Op<K, P, D>>, i: nat, p: P, k: K, x: K, c: nat)
    returns (more: seq<Op<K, P, D>>)
    requires i < |ops| && LastWrite(n, ops, i, p, k) && ops[i].Insert? && x != k
    requires ops[i].e.time.blockNumber in Run(n, ops).index
    requires c in Filed(n, ops, i, k) && c < ops[i].e.time.blockNumber
    ensures Quiet(more, p, k)
    ensures ops[i].e.time.blockNumber in Run(n, ops + more).index && !Stored(Run(n, ops + more).records, p, k)
  {
    more := [];
    assert ops + more == ops;
    if c in Run(n, ops).index {
      IndexRefinesTopK(n, ops);
      more := DriveOut(n, ops, c, ops[i].e.time.blockNumber, p, k, x, ops[i].e.data);
    }
    QuietKeepsFiled(n, ops, more, i, p, k);
    ReadableExactly(n, ops + more, i, p, k);
  }

  lemma FollowsItsBlock<K(!new), P(!new), D>(n: nat, ops: seq<Op<K, P, D>>, more: seq<Op<K, P, D>>, i: nat, p: P, k: K)
    requires i < |ops| && LastWrite(n, ops, i, p, k) && ops[i].Insert? && Quiet(more, p, k)
    requires forall c :: c in Filed(n, ops, i, k) ==> ops[i].e.time.blockNumber <= c
    ensures Stored(Run(n, ops + more).records, p, k) <==> ops[i].e.time.blockNumber in Run(n, ops + more).index
  {
    FiledHasOwnBlock(n, ops, i, p, k);
    QuietKeepsFiled(n, ops, more, i, p, k);
    ReadableExactly(n, ops + more, i, p, k);
    IndexRefinesTopK(n, ops + more);
  }

  /**
   The test a caller can make before an insert that its block survives: the record will live exactly as
   long as its block if and only if no live bucket of a smaller block holds the key.
   */
  lemma TestBeforeInsert<K(!new), P(!new), D(!new)>(n: nat, before: seq<Op<K, P, D>>, op: Op<K, P, D>, x: K)
    requires Succeeds(Run(n, before), op) && x != op.k
    requires op.e.time.blockNumber in Run(n, before + [op]).index
    ensures LivesWith(n, before + [op], op.p, op.k, op.e.time.blockNumber) <==>
            forall c :: c in FiledNow(Run(n, before).index, op.k) ==> op.e.time.blockNumber <= c
  {
    var ops := before + [op];
    assert Front(ops) == before && Last(ops) == op && ops[|before|] == op;
    LivesWithItsBlockExactly(n, ops, |before|, op.p, op.k, x);
    hide Run;
    assert Filed(n, ops, |before|, op.k) == FiledNow(Run(n, before).index, op.k) + {op.e.time.blockNumber};
  }

  /*** Why the lifetime law has its two conditions ***/

  function Rec(block: nat): StorageEntry<int> { StorageEntry(Onchain, RecordTime(block, None), 0) }

  lemma RunSnoc(maxBlocks: nat, ops: seq<Op<int, int, int>>, op: Op<int, int, int>)
    ensures Run(maxBlocks, ops + [op]) == Apply(Run(maxBlocks, ops), op)
  {
    assert Front(ops + [op]) == ops;
  }

  /** Key 7 written under block 1, deleted, and written again under block 2. */
  function WrittenAgain(): seq<Op<int, int, int>> {
    [] + [Insert(0, 7, Rec(1))] + [Delete(0, 7)] + [Insert(0, 7, Rec(2))]
  }

  lemma WrittenAgainState()
    ensures Run(2, WrittenAgain()) ==
            PrefixedStore(2, Some(2), map[1 := {7}, 2 := {7}], map[0 := map[7 := Rec(2)]])
  {
    var o1, o2, o3 := Insert(0, 7, Rec(1)), Delete(0, 7), Insert(0, 7, Rec(2));
    var s0: PrefixedStore<int, int, int> := PrefixedStore(2, None, map[], map[]);
    var s1 := PrefixedStore(2, Some(1), map[1 := {7}], map[0 := map[7 := Rec(1)]]);
    var s2 := PrefixedStore(2, Some(1), map[1 := {7}], map[0 := map[]]);
    var s3 := PrefixedStore(2, Some(2), map[1 := {7}, 2 := {7}], map[0 := map[7 := Rec(2)]]);
    FirstInsert(s0, o1, s1);
    assert Apply(s1, o2) == s2;
    assert |s2.index| == 1;
    FirstInsert(s2, o3, s3);
    RunSnoc(2, [], o1);
    RunSnoc(2, [] + [o1], o2);
    RunSnoc(2, [] + [o1] + [o2], o3);
  }

  /** Deleting leaves a stale index entry: the key written again under the newer block dies with the old one. */
  lemma DeletedKeyDiesEarly()
    ensures var s := Run(2, WrittenAgain() + [Insert(0, 8, Rec(3))]);
            2 in s.index && 7 in s.index[2] && !Stored(s.records, 0, 7)
  {
    var op := Insert(0, 8, Rec(3));
    WrittenAgainState();
    RunSnoc(2, WrittenAgain(), op);
    ThirdBlockEvicts(Run(2, WrittenAgain()), op);
  }

  lemma ThirdBlockEvicts(s: PrefixedStore<int, int, int>, op: Op<int, int, int>)
    requires s.maxBlocks == 2 && s.index == map[1 := {7}, 2 := {7}] && !Stored(s.records, 0, 8)
    requires op == Insert(0, 8, Rec(3))
    ensures var s' := Apply(s, op); 2 in s'.index && 7 in s'.index[2] && !Stored(s'.records, 0, 7)
  {
    assert s.index.Keys == {1, 2} && |s.index| == |s.index.Keys|;
    assert IsLeast(1, s.index.Keys);
    OverflowEvicts(s, op, 1);
  }

  /** The same key under two prefixes and two blocks: both records die with the older block. */
  lemma SharedKeyDiesEarly()
    ensures var s := Run(1, [Insert(0, 7, Rec(1)), Insert(1, 7, Rec(2))]);
            2 in s.index && 7 in s.index[2] && !Stored(s.records, 1, 7)
  {
    var o1, o2 := Insert(0, 7, Rec(1)), Insert(1, 7, Rec(2));
    assert Front([o1]) == [] && Front([o1, o2]) == [o1];
    var s0: PrefixedStore<int, int, int> := PrefixedStore(1, None, map[], map[]);
    var s1 := s0.(lastBlock := Some(1), index := map[1 := {7}], records := map[0 := map[7 := Rec(1)]]);
    FirstInsert(s0, o1, s1);
    assert Run(1, [o1]) == s1;
    OverflowEvicts(s1, o2, 1);
  }

  /** An insert under a new block that does not overflow the index. */
  lemma FirstInsert(s: PrefixedStore<int, int, int>, op: Op<int, int, int>, s': PrefixedStore<int, int, int>)
    requires Succeeds(s, op) && op.e.time.blockNumber !in s.index && |s.index| < s.maxBlocks
    requires s' == s.(lastBlock := Some(op.e.time.blockNumber), index := s.index[op.e.time.blockNumber := {op.k}],
                      records := s.records[op.p := PrefixRecords(s.records, op.p)[op.k := op.e]])
    ensures Apply(s, op) == s'
  {
    var b := op.e.time.blockNumber;
    assert {} + {op.k} == {op.k};
    assert AddKey(s.index, b, op.k) == s'.index;
    assert |s'.index| <= s.maxBlocks by {
      assert s'.index.Keys == s.index.Keys + {b} && |s'.index| == |s'.index.Keys|;
    }
    assert Apply(s, op) == Prune(s');
  }

  /** An insert under a new block that overflows the index evicts the oldest bucket from every prefix. */
  lemma OverflowEvicts(s: PrefixedStore<int, int, int>, op: Op<int, int, int>, oldest: nat)
    requires Succeeds(s, op) && op.e.time.blockNumber !in s.index && |s.index| == s.maxBlocks
    requires oldest < op.e.time.blockNumber && IsLeast(oldest, s.index.Keys)
    ensures Apply(s, op).index == s.index[op.e.time.blockNumber := {op.k}] - {oldest}
    ensures forall p, k :: k in s.index[oldest] ==> !Stored(Apply(s, op).records, p, k)
  {
    var b := op.e.time.blockNumber;
    var grown := AddKey(s.index, b, op.k);
    assert {} + {op.k} == {op.k};
    assert grown == s.index[b := {op.k}];
    assert grown.Keys == s.index.Keys + {b} && |grown| == |grown.Keys|;
    assert IsLeast(oldest, grown.Keys) && Oldest(grown.Keys) == oldest;
    InsertEffect(s, op, 0, 0);
    forall p, k | k in s.index[oldest]
      ensures !Stored(Apply(s, op).records, p, k)
    {
      InsertEffect(s, op, p, k);
    }
  }
}

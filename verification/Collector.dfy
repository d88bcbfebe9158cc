/** The collector object: its fields and its store are updated in place, as `CollectorSpec` says. */
module Collector {
  import opened Prelude
  import opened StoreSpec
  import opened CollectorSpec
  import Store
  import D = Disputes
  import E = Decoders
  import I = Inherent
  import T = TrackerSpec

  type RecordStore = Store.HashedPrefixedRecordsStorage<Hash, Prefix, Data>

  class Collector {
    const cfg: Config
    const store: RecordStore
    var number: u32
    var hashes: seq<Hash>
    var session: u32
    var authorsMissing: seq<Author>
    var seen: map<ParaId, seq<Hash>>
    var disputesSeen: map<ParaId, seq<DisputeInfo>>
    var backed: seq<T.BackedCandidateInfo>
    var included: seq<Hash>
    var timedOut: seq<Hash>
    var parasSeen: map<ParaId, u32>
    /** What was sent so far, one round per published height. */
    var subscribed: seq<Round>
    var broadcast: seq<Round>

    ghost function View(): State
      reads this, store
    {
      State(number, hashes, session, authorsMissing, seen, disputesSeen, backed, included, timedOut, parasSeen,
            store.View(), subscribed, broadcast)
    }

    constructor (cfg: Config, maxBlocks: nat)
      ensures View() == Init(maxBlocks) && fresh(store)
    {
      this.cfg := cfg;
      store := new Store.HashedPrefixedRecordsStorage<Hash, Prefix, Data>(maxBlocks);
      number, hashes, seen, disputesSeen := 0, [], map[], map[];
      session, authorsMissing := 0, [];
      backed, included, timedOut, parasSeen := [], [], [], map[];
      subscribed, broadcast := [], [];
    }

    method ProcessNewHead(block: u32, hash: Hash) returns (r: Result<()>)
      modifies this
      ensures View() == NewHead(old(View()), cfg, block, hash)
      ensures r.Err? <==> block < old(number)
    {
      if block > number {
        UpdateState(block, hash);
      } else if block == number {
        hashes := hashes + [hash];
      } else {
        return Err;
      }
      r := Ok(());
    }

    /** The event of the current height for one para. */
    method EventFor(para: ParaId, whole: bool) returns (e: NewHeadEvent)
      ensures e == CollectorSpec.EventFor(View(), para, whole)
    {
      var disputes := GetList(disputesSeen, para);
      var concluded: seq<DisputeInfo> := [];
      for k := 0 to |disputes|
        invariant concluded == Concluded(disputes[..k])
      {
        assert Front(disputes[..k + 1]) == disputes[..k];
        if disputes[k].concluded.Some? {
          concluded := concluded + [disputes[k]];
        }
      }
      assert disputes[..|disputes|] == disputes;
      e := NewHeadEvent(number, hashes, para, GetList(seen, para), backed, included, timedOut, concluded,
                        if whole then authorsMissing else []);
    }

    method EventsFor(paras: set<ParaId>, whole: bool) returns (round: Round)
      ensures round == CollectorSpec.EventsFor(View(), paras, whole)
    {
      round := map[];
      var todo := paras;
      while todo != {}
        invariant todo <= paras && round.Keys == paras - todo
        invariant forall p :: p in round ==> round[p] == CollectorSpec.EventFor(View(), p, whole)
      {
        var p :| p in todo;
        var e := EventFor(p, whole);
        round := round[p := e];
        todo := todo - {p};
      }
    }

    /** The broadcast set after this height: paras seen now are refreshed, stalled ones are evicted. */
    method RefreshParas()
      modifies this
      ensures View() == old(View()).(parasSeen := ActiveParas(old(View()), cfg.maxStall))
    {
      ghost var before := View();
      var todo := seen.Keys;
      var refreshed := parasSeen;
      while todo != {}
        invariant todo <= seen.Keys && refreshed.Keys == parasSeen.Keys + (seen.Keys - todo)
        invariant forall p :: p in refreshed ==>
            refreshed[p] == if p in seen && p !in todo then number else parasSeen[p]
      {
        var p :| p in todo;
        refreshed := refreshed[p := number];
        todo := todo - {p};
      }
      assert refreshed == Refreshed(before);
      parasSeen := map p | p in refreshed && !(WrappingSub(number, refreshed[p]) > cfg.maxStall) :: refreshed[p];
    }

    method Publish()
      modifies this
      ensures View() == CollectorSpec.Publish(old(View()), cfg)
    {
      var round := EventsFor(cfg.subscribers, true);
      subscribed := subscribed + [round];
    }

    method PublishBroadcast()
      modifies this
      ensures View() == CollectorSpec.PublishBroadcast(old(View()), cfg)
    {
      ghost var before := View();
      RefreshParas();
      var round := EventsFor(parasSeen.Keys, false);
      assert round == CollectorSpec.EventsFor(before, parasSeen.Keys, false);
      broadcast := broadcast + [round];
    }

    method StartHeight(block: u32, hash: Hash)
      modifies this
      ensures View() == CollectorSpec.StartHeight(old(View()), block, hash)
    {
      ClearSeen();
      backed, included, timedOut, authorsMissing := [], [], [], [];
      number, hashes := block, [hash];
    }

    method ClearSeen()
      modifies this
      ensures View() == old(View()).(seen := map[], disputesSeen := map[])
    {
      seen, disputesSeen := map[], map[];
    }

    method UpdateState(block: u32, hash: Hash)
      modifies this
      ensures View() == CollectorSpec.UpdateState(old(View()), cfg, block, hash)
    {
      Publish();
      if cfg.broadcasting {
        PublishBroadcast();
      }
      StartHeight(block, hash);
    }

    method SetSession(index: u32)
      modifies this
      ensures View() == Step(old(View()), cfg, NewSession(index))
    {
      session := index;
    }

    /** The authors a processed head found missing join those of the height. */
    method NoteAuthors(authors: seq<Author>)
      modifies this
      ensures View() == old(View()).(authorsMissing := old(authorsMissing) + authors)
    {
      authorsMissing := authorsMissing + authors;
    }

    method ReadHeader(relayParent: Hash, fetched: Option<u32>) returns (header: Option<u32>)
      modifies store
      ensures header == HeaderNumber(old(store.View()), relayParent, fetched)
      ensures store.View() == ReadOrFetch(old(store.View()), relayParent, fetched)
    {
      var existing := store.GetPrefix(RelayBlockHeader, relayParent);
      if existing.Some? {
        return if existing.value.data.HeaderData? then Some(existing.value.data.number) else None;
      }
      if fetched.None? {
        return None;
      }
      var _ := store.InsertPrefix(RelayBlockHeader, relayParent, Entry(fetched.value, HeaderData(fetched.value)));
      header := fetched;
    }

    method RecordBacked(ev: CandidateEvent, relayParentNumber: u32)
      modifies this, store
      ensures View() == CollectorSpec.RecordBacked(old(View()), ev, relayParentNumber)
    {
      var p, k := ev.parachainId, ev.candidateHash;
      var record := CandidateRecord(p, number, ev.coreIdx, ev.relayParent, relayParentNumber, None, None, None);
      var _ := store.InsertPrefix(CandidateOf(p), k, Entry(number, CandidateData(record)));
      seen := Push(seen, p, k);
      backed := backed + [T.BackedCandidateInfo(k, ev.coreIdx, p)];
    }

    method ProcessBacked(ev: CandidateEvent, fetched: Option<u32>)
      modifies this, store
      ensures View() == CollectorSpec.ProcessBacked(old(View()), ev, fetched)
    {
      var p, k := ev.parachainId, ev.candidateHash;
      var existing := store.GetPrefix(CandidateOf(p), k);
      if existing.Some? {
        return;
      }
      var written := store.InsertPrefix(CandidatesParachains, k, Entry(number, ParaOf(p)));
      if written.Err? {
        return;
      }
      var header := ReadHeader(ev.relayParent, fetched);
      if header.Some? {
        RecordBacked(ev, header.value);
      }
    }

    method ReadCandidate(p: ParaId, k: Hash) returns (c: Option<CandidateRecord>)
      ensures c == CandidateAt(store.View(), p, k)
    {
      var e := store.GetPrefix(CandidateOf(p), k);
      c := if e.Some? && e.value.data.CandidateData? then Some(e.value.data.c) else None;
    }

    method ProcessOutcome(ev: CandidateEvent)
      modifies this, store
      ensures View() == CollectorSpec.ProcessOutcome(old(View()), ev)
    {
      var p, k := ev.parachainId, ev.candidateHash;
      var known := ReadCandidate(p, k);
      if known.None? {
        return;
      }
      var c := known.value;
      seen := Push(seen, p, k);
      if ev.eventType.Included? {
        c := c.(included := Some(number));
        included := included + [k];
      } else {
        c := c.(timedout := Some(number));
        timedOut := timedOut + [k];
      }
      var _ := store.ReplacePrefixed(CandidateOf(p), k, Entry(number, CandidateData(c)));
    }

    method ProcessCandidateChange(ev: CandidateEvent, fetched: Option<u32>)
      modifies this, store
      ensures View() == ProcessCandidate(old(View()), ev, fetched)
    {
      if ev.eventType.Backed? {
        ProcessBacked(ev, fetched);
      } else {
        ProcessOutcome(ev);
      }
    }

    method FindCandidateByHash(k: Hash) returns (c: Option<CandidateRecord>)
      ensures c == FindCandidate(store.View(), k)
    {
      var pointer := store.GetPrefix(CandidatesParachains, k);
      if pointer.None? || !pointer.value.data.ParaOf? {
        return None;
      }
      c := ReadCandidate(pointer.value.data.p, k);
    }

    method ExtractDisputeInitiators(d: D.SubxtDispute) returns (who: Option<(seq<u32>, u32)>)
      ensures who == Initiators(View(), d)
    {
      var entry := store.GetPrefix(InherentPrefix, d.relayParentBlock);
      if entry.None? {
        return Some(([], session));
      }
      if !entry.value.data.InherentRecord? {
        return None;
      }
      var found := FindSet(entry.value.data.data.disputes, d.candidateHash);
      if found.None? {
        return Some(([], session));
      }
      who := Some((InvalidVoters(found.value.statements), found.value.session));
    }

    method ProcessDisputeInitiated(d: D.SubxtDispute)
      modifies this, store
      ensures View() == ProcessInitiated(old(View()), d)
    {
      var found := FindCandidateByHash(d.candidateHash);
      if found.None? {
        return;
      }
      var c, k := found.value, d.candidateHash;
      var p := c.parachainId;
      var who := ExtractDisputeInitiators(d);
      if who.None? {
        return;
      }
      var info := DisputeInfo(number, who.value.0, who.value.1, d, p, None, None);
      disputesSeen := Push(disputesSeen, p, info);
      var written := store.InsertPrefix(DisputeOf(p), k, Entry(number, DisputeData(info)));
      if written.Err? {
        return;
      }
      c := c.(disputed := Some(CandidateDisputed(number, None)));
      var _ := store.ReplacePrefixed(CandidateOf(p), k, Entry(number, CandidateData(c)));
    }

    method ProcessDisputeConcluded(d: D.SubxtDispute, outcome: D.Outcome)
      modifies this, store
      ensures View() == ProcessConcluded(old(View()), d, outcome)
    {
      var found := FindCandidateByHash(d.candidateHash);
      if found.None? {
        return;
      }
      var c, k := found.value, d.candidateHash;
      var p := c.parachainId;
      c := c.(disputed := Some(CandidateDisputed(number, Some((number, outcome)))));
      var known := store.GetPrefix(DisputeOf(p), k);
      if known.Some? {
        if !known.value.data.DisputeData? {
          return;
        }
        var info := known.value.data.d.(outcome := Some(outcome), concluded := Some(number));
        disputesSeen := Push(disputesSeen, p, info);
        var _ := store.ReplacePrefixed(DisputeOf(p), k, Entry(number, DisputeData(info)));
      }
      var _ := store.ReplacePrefixed(CandidateOf(p), k, Entry(number, CandidateData(c)));
    }
  }
}

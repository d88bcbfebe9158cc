/** The metadata-free decoders of the runtime-call results. */
module Decoders {
  import opened Prelude
  import opened Scale
  import opened Quorum
  import opened Disputes
  import T = TrackerSpec

  const U32: Shape := Uint(4)
  const U64: Shape := Uint(8)
  const H256: Shape := Fixed(32)
  const BLOB: Shape := VecOf(Uint(1))
  const DESCRIPTOR_SIZE: nat := 292
  const RECEIPT_SIZE: nat := DESCRIPTOR_SIZE + 32
  const RECEIPT_TAIL_SIZE: nat := RECEIPT_SIZE - 4 - 32

  /** A hash of the other modules, from its 32 bytes. */
  function HashOf(b: Bytes): Hash { LeNat(b) }

  /*** ParachainHost_candidate_events ***/

  const RECEIPT: Shape := Pair(U32, Pair(H256, Fixed(RECEIPT_TAIL_SIZE)))
  const GROUPED: Shape := Pair(RECEIPT, Pair(BLOB, Pair(U32, U32)))
  const UNGROUPED: Shape := Pair(RECEIPT, Pair(BLOB, U32))
  const TIMED_OUT: Shape := Case(2, UNGROUPED, NoCase)
  const INCLUDED_OR_LATER: Shape := Case(1, GROUPED, TIMED_OUT)
  const CANDIDATE_EVENT: Shape := Case(0, GROUPED, INCLUDED_OR_LATER)

  datatype EventType = Backed | Included | TimedOut
  datatype CandidateEvent = CandidateEvent(
    candidateHash: Hash, relayParent: Hash, parachainId: nat, eventType: EventType, coreIdx: nat)

  lemma EventParts(v: Val)
    requires Fits(CANDIDATE_EVENT, v)
    ensures v.Tagged? && v.t <= 2 && v.v.Both? && v.v.b2.Both? && Fits(RECEIPT, v.v.a)
    ensures v.t < 2 ==> v.v.b2.b2.Both? && Fits(GROUPED, v.v) && Fits(U32, v.v.b2.b2.a)
    ensures v.t == 2 ==> Fits(UNGROUPED, v.v) && Fits(U32, v.v.b2.b2)
  {
    if v.t != 0 {
      assert Fits(INCLUDED_OR_LATER, v);
    }
    if v.t > 1 {
      assert Fits(TIMED_OUT, v);
      assert Fits(UNGROUPED.snd, v.v.b2);
    } else {
      assert Fits(GROUPED.snd, v.v.b2) && Fits(GROUPED.snd.snd, v.v.b2.b2);
    }
  }

  lemma ReceiptParts(v: Val)
    requires Fits(RECEIPT, v)
    ensures v.Both? && v.a.Num? && v.b2.Both? && v.b2.a.Raw? && v.b2.b2.Raw?
    ensures |v.b2.a.b| == 32 && |v.b2.b2.b| == RECEIPT_TAIL_SIZE && v.a.n < Pow256(4)
    ensures Encode(RECEIPT, v) == LeBytes(v.a.n, 4) + (v.b2.a.b + v.b2.b2.b)
    ensures |Encode(RECEIPT, v)| == RECEIPT_SIZE
  {
    assert Fits(RECEIPT.snd, v.b2);
    assert Encode(RECEIPT.snd, v.b2) == v.b2.a.b + v.b2.b2.b;
  }

  function ToEvent(v: Val, hasher: Bytes -> Hash): CandidateEvent
    requires Fits(CANDIDATE_EVENT, v)
  {
    EventParts(v);
    ReceiptParts(v.v.a);
    var receipt := v.v.a;
    CandidateEvent(
      hasher(Encode(RECEIPT, receipt)),
      HashOf(receipt.b2.a.b),
      receipt.a.n,
      if v.t == 0 then Backed else if v.t == 1 then Included else TimedOut,
      if v.t < 2 then v.v.b2.b2.a.n else v.v.b2.b2.n)
  }

  function DecodeCandidateEvents(b: Bytes, hasher: Bytes -> Hash): Option<seq<CandidateEvent>> {
    match DecodeAll(VecOf(CANDIDATE_EVENT), b)
    case None => None
    case Some(raw) =>
      EventShape();
      DecodedFits(VecOf(CANDIDATE_EVENT), b);
      Some(seq(|raw.vs|, i requires 0 <= i < |raw.vs| => ToEvent(raw.vs[i], hasher)))
  }

  /** Accepting a result means rejecting it with anything cut off or appended. */
  lemma CandidateEventsExact(b: Bytes, x: Bytes, hasher: Bytes -> Hash)
    requires x != []
    ensures DecodeCandidateEvents(b, hasher).Some? ==> DecodeCandidateEvents(b + x, hasher).None?
    ensures DecodeCandidateEvents(b + x, hasher).Some? ==> DecodeCandidateEvents(b, hasher).None?
  {
    ExactConsumption(VecOf(CANDIDATE_EVENT), b, x);
  }

  /** The encoding is the input: an accepted result is the encoding of what was decoded, event by event. */
  lemma CandidateEventsCanonical(b: Bytes, hasher: Bytes -> Hash)
    requires DecodeCandidateEvents(b, hasher).Some?
    ensures var events := DecodeCandidateEvents(b, hasher).value;
            exists vs: seq<Val> ::
              && |vs| == |events| && |vs| < TWO_32
              && (forall i :: 0 <= i < |vs| ==> Fits(CANDIDATE_EVENT, vs[i]) && events[i] == ToEvent(vs[i], hasher))
              && b == CompactBytes(|vs|) + EncodeMany(CANDIDATE_EVENT, vs)
  {
    var s := VecOf(CANDIDATE_EVENT);
    EventShape();
    Canonical(s, b);
    var vs := DecodeAll(s, b).value.vs;
    assert b == CompactBytes(|vs|) + EncodeMany(CANDIDATE_EVENT, vs);
  }

  lemma PairPlain(fst: Shape, snd: Shape)
    requires WellShaped(fst) && NoBits(fst) && WellShaped(snd) && NoBits(snd)
    ensures WellShaped(Pair(fst, snd)) && NoBits(Pair(fst, snd))
  {
  }

  lemma CasePlain(tag: u8, payload: Shape, others: Shape)
    requires WellShaped(payload) && NoBits(payload) && WellShaped(others) && NoBits(others)
    requires others.Case? || others.NoCase?
    ensures WellShaped(Case(tag, payload, others)) && NoBits(Case(tag, payload, others))
  {
  }

  lemma EventShape()
    ensures WellShaped(VecOf(CANDIDATE_EVENT)) && NoBits(VecOf(CANDIDATE_EVENT))
  {
    PairPlain(H256, Fixed(RECEIPT_TAIL_SIZE));
    PairPlain(U32, RECEIPT.snd);
    PairPlain(U32, U32);
    PairPlain(BLOB, GROUPED.snd.snd);
    PairPlain(RECEIPT, GROUPED.snd);
    PairPlain(BLOB, U32);
    PairPlain(RECEIPT, UNGROUPED.snd);
    CasePlain(2, UNGROUPED, NoCase);
    CasePlain(1, GROUPED, TIMED_OUT);
    CasePlain(0, GROUPED, INCLUDED_OR_LATER);
  }

  lemma EventEncoding(v: Val)
    requires Fits(CANDIDATE_EVENT, v)
    ensures v.t < 2 ==> Fits(GROUPED, v.v) && Encode(CANDIDATE_EVENT, v) == [v.t] + Encode(GROUPED, v.v)
    ensures v.t == 2 ==> Fits(UNGROUPED, v.v) && Encode(CANDIDATE_EVENT, v) == [v.t] + Encode(UNGROUPED, v.v)
  {
    EventParts(v);
    if v.t != 0 {
      assert Encode(CANDIDATE_EVENT, v) == Encode(INCLUDED_OR_LATER, v);
    }
    if v.t == 2 {
      assert Encode(INCLUDED_OR_LATER, v) == Encode(TIMED_OUT, v);
    }
  }

  /**
   Every event is read from fixed places of its encoding: the candidate hash is the hash of the 324 bytes
   after the tag, whatever they contain, and the para id and relay parent lead them.
   */
  lemma EventWindow(v: Val, hasher: Bytes -> Hash)
    requires Fits(CANDIDATE_EVENT, v)
    ensures var b := Encode(CANDIDATE_EVENT, v);
            && |b| >= 1 + RECEIPT_SIZE
            && ToEvent(v, hasher).candidateHash == hasher(b[1..1 + RECEIPT_SIZE])
            && ToEvent(v, hasher).parachainId == LeNat(b[1..5])
            && ToEvent(v, hasher).relayParent == HashOf(b[5..37])
  {
    EventParts(v);
    ReceiptParts(v.v.a);
    var payload := if v.t < 2 then GROUPED else UNGROUPED;
    var r := Encode(RECEIPT, v.v.a);
    var b := Encode(CANDIDATE_EVENT, v);
    EventEncoding(v);
    assert Encode(payload, v.v) == r + Encode(payload.snd, v.v.b2);
    Windows(v.t, LeBytes(v.v.a.a.n, 4), v.v.a.b2.a.b, v.v.a.b2.b2.b, Encode(payload.snd, v.v.b2));
    assert b == [v.t] + (r + Encode(payload.snd, v.v.b2));
    LeRoundTrip(v.v.a.a.n, 4);
  }

  /** The fixed places of an event: tag, para id, relay parent, the rest of the receipt. */
  lemma Windows(tag: u8, para: Bytes, parent: Bytes, tail: Bytes, rest: Bytes)
    requires |para| == 4 && |parent| == 32 && |tail| == RECEIPT_TAIL_SIZE
    ensures var receipt := para + (parent + tail);
            var b := [tag] + (receipt + rest);
            && |b| >= 1 + RECEIPT_SIZE && b[1..1 + RECEIPT_SIZE] == receipt
            && b[1..5] == para && b[5..37] == parent
  {
    var b := [tag] + ((para + (parent + tail)) + rest);
    assert b[1..5] == para;
    assert b[5..37] == parent;
  }

  /*** ParachainHost_disputes ***/

  const CONCLUDED_AT: Shape := OptionOf(U32)
  const DISPUTE_TAIL: Shape := Pair(U32, CONCLUDED_AT)
  const DISPUTE_VOTES: Shape := Pair(Bits, Pair(Bits, DISPUTE_TAIL))
  const DISPUTE: Shape := Pair(U32, Pair(H256, DISPUTE_VOTES))

  /** The indices of the set bits, in order. */
  function Ones(bits: seq<bool>): seq<u32>
    requires |bits| <= MAX_BITS
  {
    if bits == [] then []
    else if Last(bits) then Ones(Front(bits)) + [|bits| - 1]
    else Ones(Front(bits))
  }

  lemma {:induction false} OnesMembers(bits: seq<bool>, i: u32)
    requires |bits| <= MAX_BITS
    ensures i in Ones(bits) <==> i < |bits| && bits[i]
    ensures Increasing(Ones(bits))
  {
    if bits != [] {
      OnesMembers(Front(bits), i);
      var before := Ones(Front(bits));
      forall k | 0 <= k < |before|
        ensures before[k] < |bits| - 1
      {
        OnesMembers(Front(bits), before[k]);
      }
    }
  }

  function VoteBits(votes: seq<u32>, count: nat): seq<bool> {
    seq(count, i requires 0 <= i < count => i < TWO_32 && (i as u32) in votes)
  }

  lemma {:induction false} IncreasingUnique(a: seq<u32>, b: seq<u32>)
    requires Increasing(a) && Increasing(b)
    requires forall x :: x in a <==> x in b
    ensures a == b
    decreases |a|
  {
    assert Members(a) == Members(b);
    IncreasingSize(a);
    IncreasingSize(b);
    if a != [] {
      assert Last(a) in b && Last(b) in a;
      var j :| 0 <= j < |b| && b[j] == Last(a);
      var i :| 0 <= i < |a| && a[i] == Last(b);
      assert Last(a) == Last(b);
      forall x
        ensures x in Front(a) <==> x in Front(b)
      {
        DropLast(a, x);
        DropLast(b, x);
      }
      IncreasingUnique(Front(a), Front(b));
    }
  }

  lemma DropLast(s: seq<u32>, x: u32)
    requires Increasing(s) && s != []
    ensures x in Front(s) <==> x in s && x != Last(s)
  {
    assert s == Front(s) + [Last(s)];
  }

  lemma VotesRoundTrip(votes: seq<u32>, count: nat)
    requires Increasing(votes) && count <= MAX_BITS && forall x :: x in votes ==> x < count
    ensures Ones(VoteBits(votes, count)) == votes
  {
    forall x: u32
      ensures x in Ones(VoteBits(votes, count)) <==> x in votes
    {
      OnesMembers(VoteBits(votes, count), x);
    }
    OnesMembers(VoteBits(votes, count), 0);
    IncreasingUnique(Ones(VoteBits(votes, count)), votes);
  }

  lemma DisputeParts(v: Val)
    requires Fits(DISPUTE, v)
    ensures v.Both? && v.a.Num? && v.a.n < TWO_32 && v.b2.Both? && v.b2.a.Raw? && |v.b2.a.b| == 32
    ensures var votes := v.b2.b2;
            && votes.Both? && votes.a.BitList? && |votes.a.bits| <= MAX_BITS
            && votes.b2.Both? && votes.b2.a.BitList? && |votes.b2.a.bits| <= MAX_BITS
            && Fits(DISPUTE_TAIL, votes.b2.b2)
  {
    Pow256Values();
    assert Fits(DISPUTE.snd, v.b2);
    assert Fits(DISPUTE_VOTES, v.b2.b2);
    assert Fits(DISPUTE_VOTES.snd, v.b2.b2.b2);
  }

  lemma TailParts(v: Val)
    requires Fits(DISPUTE_TAIL, v)
    ensures v.Both? && v.a.Num? && v.a.n < TWO_32 && v.b2.Tagged? && v.b2.t <= 1
    ensures v.b2.t == 1 ==> v.b2.v.Num? && v.b2.v.n < TWO_32
  {
    Pow256Values();
    assert Fits(CONCLUDED_AT, v.b2);
    if v.b2.t != 0 {
      assert Fits(Case(1, U32, NoCase), v.b2);
    }
  }

  /** A raw dispute is refused when its two bit sets differ in length. */
  function ToDispute(v: Val): Option<DecodedDispute>
    requires Fits(DISPUTE, v)
  {
    DisputeParts(v);
    var votes := v.b2.b2;
    TailParts(votes.b2.b2);
    var tail := votes.b2.b2;
    FromParts(v.a.n, HashOf(v.b2.a.b), votes.a.bits, votes.b2.a.bits, tail.a.n,
              if tail.b2.t == 0 then None else Some(tail.b2.v.n))
  }

  function FromParts(session: u32, hash: Hash, bitsFor: seq<bool>, bitsAgainst: seq<bool>, start: u32,
                     concludedAt: Option<u32>):
    Option<DecodedDispute>
    requires |bitsFor| <= MAX_BITS && |bitsAgainst| <= MAX_BITS
  {
    if |bitsFor| != |bitsAgainst| then None
    else Some(DecodedDispute(session, hash, Ones(bitsFor), Ones(bitsAgainst), |bitsFor|, start, concludedAt))
  }

  /** The first refusal refuses the whole list. */
  function ToDisputes(vs: seq<Val>): Option<seq<DecodedDispute>>
    requires forall i :: 0 <= i < |vs| ==> Fits(DISPUTE, vs[i])
  {
    if vs == [] then Some([])
    else
      match ToDispute(vs[0])
      case None => None
      case Some(d) => match ToDisputes(vs[1..]) case None => None case Some(ds) => Some([d] + ds)
  }

  function DecodeDisputes(b: Bytes): Option<seq<DecodedDispute>> {
    match DecodeAll(VecOf(DISPUTE), b)
    case None => None
    case Some(raw) =>
      DecodedFits(VecOf(DISPUTE), b);
      ToDisputes(raw.vs)
  }

  predicate SameLengths(v: Val)
    requires Fits(DISPUTE, v)
  {
    DisputeParts(v);
    |v.b2.b2.a.bits| == |v.b2.b2.b2.a.bits|
  }

  lemma DisputeMapped(v: Val)
    requires Fits(DISPUTE, v)
    ensures ToDispute(v).Some? <==> SameLengths(v)
  {
  }

  /** What a decoded dispute says about its raw form. */
  lemma {:induction false} DisputesMapped(vs: seq<Val>)
    requires forall i :: 0 <= i < |vs| ==> Fits(DISPUTE, vs[i])
    ensures ToDisputes(vs).Some? <==> forall i :: 0 <= i < |vs| ==> SameLengths(vs[i])
    ensures ToDisputes(vs).Some? ==>
      var ds := ToDisputes(vs).value;
      |ds| == |vs| && forall i :: 0 <= i < |vs| ==> ToDispute(vs[i]) == Some(ds[i])
  {
    hide Fits, ToDispute, SameLengths;
    if vs != [] {
      DisputesMapped(vs[1..]);
      DisputeMapped(vs[0]);
    }
  }

  /** Whatever bytes are accepted, both vote lists strictly increase and stay below the validator count. */
  predicate WellVoted(d: DecodedDispute) {
    && Increasing(d.validatorsFor) && Increasing(d.validatorsAgainst)
    && (forall x :: x in d.validatorsFor ==> x < d.validatorCount)
    && (forall x :: x in d.validatorsAgainst ==> x < d.validatorCount)
  }

  lemma DecodedDisputesWellVoted(b: Bytes, i: nat)
    requires DecodeDisputes(b).Some? && i < |DecodeDisputes(b).value|
    ensures WellVoted(DecodeDisputes(b).value[i])
  {
    DecodedFits(VecOf(DISPUTE), b);
    var vs := DecodeAll(VecOf(DISPUTE), b).value.vs;
    DisputesMapped(vs);
    DisputeParts(vs[i]);
    var votes := vs[i].b2.b2;
    OnesMembers(votes.a.bits, 0);
    OnesMembers(votes.b2.a.bits, 0);
    forall x: u32
      ensures x in Ones(votes.a.bits) || x in Ones(votes.b2.a.bits) ==> x < |votes.a.bits|
    {
      OnesMembers(votes.a.bits, x);
      OnesMembers(votes.b2.a.bits, x);
    }
  }

  /** A decoded dispute concluded on both sides has more than (n-1)/3 validators on both of them. */
  lemma DecodedDisputesOverlap(b: Bytes, i: nat)
    requires DecodeDisputes(b).Some? && i < |DecodeDisputes(b).value|
    ensures var d := DecodeDisputes(b).value[i];
            d.ConcludedFor() && d.ConcludedAgainst() ==>
            |Members(d.validatorsFor) * Members(d.validatorsAgainst)| >= (d.validatorCount - 1) / 3 + 1
  {
    DecodedDisputesWellVoted(b, i);
    var d := DecodeDisputes(b).value[i];
    if d.ConcludedFor() && d.ConcludedAgainst() {
      BothSidesOverlap(d.validatorCount, d.validatorsFor, d.validatorsAgainst);
    }
  }

  /** Bytes are accepted exactly when they are a list of raw disputes whose bit sets agree in length. */
  lemma DisputesAcceptedExactly(b: Bytes)
    ensures DecodeDisputes(b).Some? <==>
            && DecodeAll(VecOf(DISPUTE), b).Some?
            && var raw := DecodeAll(VecOf(DISPUTE), b).value;
               raw.List? && forall i :: 0 <= i < |raw.vs| ==> Fits(DISPUTE, raw.vs[i]) && SameLengths(raw.vs[i])
  {
    if DecodeAll(VecOf(DISPUTE), b).Some? {
      DecodedFits(VecOf(DISPUTE), b);
      DisputesMapped(DecodeAll(VecOf(DISPUTE), b).value.vs);
    }
  }

  lemma DisputesExact(b: Bytes, x: Bytes)
    requires x != []
    ensures DecodeDisputes(b).Some? ==> DecodeDisputes(b + x).None?
    ensures DecodeDisputes(b + x).Some? ==> DecodeDisputes(b).None?
  {
    ExactConsumption(VecOf(DISPUTE), b, x);
  }

  /*** The encoder of disputes: packed bit sets of the votes ***/

  predicate Encodable(d: DecodedDispute) {
    d.candidateHash < Pow256(32) && d.validatorCount <= MAX_BITS && WellVoted(d)
  }

  function OptionVal(o: Option<u32>): Val {
    match o
    case None => Tagged(0, Nothing)
    case Some(n) => Tagged(1, Num(n))
  }

  function DisputeVal(d: DecodedDispute): Val {
    Both(Num(d.session), Both(Raw(LeBytes(d.candidateHash, 32)),
      Both(BitList(VoteBits(d.validatorsFor, d.validatorCount)),
        Both(BitList(VoteBits(d.validatorsAgainst, d.validatorCount)),
          Both(Num(d.start), OptionVal(d.concludedAt))))))
  }

  lemma TailFits(start: u32, concludedAt: Option<u32>)
    ensures Fits(DISPUTE_TAIL, Both(Num(start), OptionVal(concludedAt)))
  {
    Pow256Values();
    var o := OptionVal(concludedAt);
    if concludedAt.Some? {
      assert Fits(Case(1, U32, NoCase), o);
    }
    assert Fits(CONCLUDED_AT, o);
  }

  lemma DisputeValFits(d: DecodedDispute)
    requires Encodable(d)
    ensures Fits(DISPUTE, DisputeVal(d))
  {
    var v := DisputeVal(d);
    assert d.session < Pow256(4) by { Pow256Values(); }
    TailFits(d.start, d.concludedAt);
    assert Fits(DISPUTE_VOTES.snd, v.b2.b2.b2);
    assert Fits(DISPUTE_VOTES, v.b2.b2);
    assert Fits(DISPUTE.snd, v.b2);
  }

  lemma DisputeValBack(d: DecodedDispute)
    requires Encodable(d) && Fits(DISPUTE, DisputeVal(d))
    ensures ToDispute(DisputeVal(d)) == Some(d) && SameLengths(DisputeVal(d))
  {
    PartsBack(d);
    DisputeValReads(d, DisputeVal(d));
  }

  lemma PartsBack(d: DecodedDispute)
    requires Encodable(d)
    ensures FromParts(d.session, HashOf(LeBytes(d.candidateHash, 32)), VoteBits(d.validatorsFor, d.validatorCount),
                      VoteBits(d.validatorsAgainst, d.validatorCount), d.start, d.concludedAt) == Some(d)
  {
    LeRoundTrip(d.candidateHash, 32);
    VotesRoundTrip(d.validatorsFor, d.validatorCount);
    VotesRoundTrip(d.validatorsAgainst, d.validatorCount);
  }

  lemma DisputeValReads(d: DecodedDispute, v: Val)
    requires v == DisputeVal(d) && Fits(DISPUTE, v) && d.validatorCount <= MAX_BITS
    ensures SameLengths(v)
    ensures ToDispute(v) == FromParts(d.session, HashOf(LeBytes(d.candidateHash, 32)),
      VoteBits(d.validatorsFor, d.validatorCount), VoteBits(d.validatorsAgainst, d.validatorCount), d.start,
          d.concludedAt)
  {
  }

  function DisputeVals(ds: seq<DecodedDispute>): seq<Val> {
    seq(|ds|, i requires 0 <= i < |ds| => DisputeVal(ds[i]))
  }

  function EncodeDisputes(ds: seq<DecodedDispute>): Bytes
    requires |ds| < TWO_32 && forall i :: 0 <= i < |ds| ==> Encodable(ds[i])
  {
    DisputeValsFit(ds);
    Encode(VecOf(DISPUTE), List(DisputeVals(ds)))
  }

  lemma DisputeValsFit(ds: seq<DecodedDispute>)
    requires forall i :: 0 <= i < |ds| ==> Encodable(ds[i])
    ensures forall i :: 0 <= i < |ds| ==> Fits(DISPUTE, DisputeVals(ds)[i])
  {
    forall i | 0 <= i < |ds|
      ensures Fits(DISPUTE, DisputeVals(ds)[i])
    {
      DisputeValFits(ds[i]);
    }
  }

  /** Packed bit sets round trip: encoding any disputes and decoding the bytes gives the same disputes back. */
  lemma DisputesRoundTrip(ds: seq<DecodedDispute>)
    requires |ds| < TWO_32 && forall i :: 0 <= i < |ds| ==> Encodable(ds[i])
    ensures DecodeDisputes(EncodeDisputes(ds)) == Some(ds)
  {
    DisputeValsFit(ds);
    RoundTrip(VecOf(DISPUTE), List(DisputeVals(ds)), []);
    assert EncodeDisputes(ds) + [] == EncodeDisputes(ds);
    DisputeValsBack(ds);
  }

  lemma DisputeValsBack(ds: seq<DecodedDispute>)
    requires forall i :: 0 <= i < |ds| ==> Encodable(ds[i])
    ensures forall i :: 0 <= i < |ds| ==> Fits(DISPUTE, DisputeVals(ds)[i])
    ensures ToDisputes(DisputeVals(ds)) == Some(ds)
  {
    forall i | 0 <= i < |ds|
      ensures Reads(DisputeVals(ds)[i], ds[i])
    {
      ReadsBack(ds[i], DisputeVals(ds)[i]);
    }
    AllRead(DisputeVals(ds), ds);
  }

  lemma ReadsBack(d: DecodedDispute, v: Val)
    requires Encodable(d) && v == DisputeVal(d)
    ensures Reads(v, d)
  {
    DisputeValFits(d);
    DisputeValBack(d);
  }

  predicate Reads(v: Val, d: DecodedDispute) { Fits(DISPUTE, v) && ToDispute(v) == Some(d) }

  lemma ReadFits(v: Val, d: DecodedDispute)
    requires Reads(v, d)
    ensures Fits(DISPUTE, v) && ToDispute(v) == Some(d)
  {
  }

  lemma {:induction false} AllRead(vs: seq<Val>, ds: seq<DecodedDispute>)
    requires |vs| == |ds| && forall i :: 0 <= i < |vs| ==> Reads(vs[i], ds[i])
    ensures forall i :: 0 <= i < |vs| ==> Fits(DISPUTE, vs[i])
    ensures ToDisputes(vs) == Some(ds)
  {
    hide Reads, Fits, ToDispute;
    forall i | 0 <= i < |vs|
      ensures Fits(DISPUTE, vs[i])
    {
      ReadFits(vs[i], ds[i]);
    }
    if vs != [] {
      ReadFits(vs[0], ds[0]);
      AllRead(vs[1..], ds[1..]);
      assert ds == [ds[0]] + ds[1..];
    }
  }

  /*** ParachainHost_availability_cores ***/

  const SCHEDULED: Shape := Pair(U32, OptionOf(H256))
  const OCCUPIED: Shape :=
    Pair(OptionOf(SCHEDULED), Pair(U32, Pair(U32, Pair(OptionOf(SCHEDULED),
      Pair(Bits, Pair(U32, Pair(H256, Fixed(DESCRIPTOR_SIZE))))))))
  const CORE_STATE: Shape := Case(0, OCCUPIED, Case(1, SCHEDULED, Case(2, Unit, NoCase)))

  function ToCore(v: Val): T.CoreOccupied {
    if v.Tagged? && v.t == 0 then T.Occupied else if v.Tagged? && v.t == 1 then T.Scheduled else T.Free
  }

  function DecodeAvailabilityCores(b: Bytes): Option<seq<T.CoreOccupied>> {
    match DecodeAll(VecOf(CORE_STATE), b)
    case None => None
    case Some(raw) => if raw.List? then Some(seq(|raw.vs|, i requires 0 <= i < |raw.vs| => ToCore(raw.vs[i]))) else None
  }

  /** Every list of core states decodes to its variants, in order, whatever the payloads hold. */
  lemma AvailabilityCoresRoundTrip(vs: seq<Val>)
    requires Fits(VecOf(CORE_STATE), List(vs))
    ensures DecodeAvailabilityCores(Encode(VecOf(CORE_STATE), List(vs))) ==
            Some(seq(|vs|, i requires 0 <= i < |vs| => ToCore(vs[i])))
  {
    var b := Encode(VecOf(CORE_STATE), List(vs));
    RoundTrip(VecOf(CORE_STATE), List(vs), []);
    assert b + [] == b;
  }

  lemma AvailabilityCoresExact(b: Bytes, x: Bytes)
    requires x != []
    ensures DecodeAvailabilityCores(b).Some? ==> DecodeAvailabilityCores(b + x).None?
    ensures DecodeAvailabilityCores(b + x).Some? ==> DecodeAvailabilityCores(b).None?
  {
    ExactConsumption(VecOf(CORE_STATE), b, x);
  }

  /*** BabeApi_current_epoch ***/

  const AUTHORITIES: Shape := VecOf(Pair(H256, U64))
  const BABE_EPOCH: Shape := Pair(U64, Pair(U64, Pair(U64, Pair(AUTHORITIES, H256))))

  /** The authorities and the randomness. */
  function DecodeBabeEpoch(b: Bytes): Option<(Val, Val)> {
    match Decode(BABE_EPOCH, b)
    case Fail => None
    case Got(v, _) =>
      DecodedFits(BABE_EPOCH, b);
      assert Fits(BABE_EPOCH.snd, v.b2) && Fits(BABE_EPOCH.snd.snd, v.b2.b2);
      Some((v.b2.b2.b2.a, v.b2.b2.b2.b2))
  }

  /** Fields appended in an upgrade are tolerated: every extension of an accepted input decodes to the same epoch. */
  lemma BabeEpochIgnoresTail(b: Bytes, x: Bytes)
    requires DecodeBabeEpoch(b).Some?
    ensures DecodeBabeEpoch(b + x) == DecodeBabeEpoch(b)
  {
    Extension(BABE_EPOCH, b, x);
  }

  lemma BabeEpochRoundTrip(v: Val, tail: Bytes)
    requires Fits(BABE_EPOCH, v)
    ensures v.Both? && v.b2.Both? && v.b2.b2.Both? && v.b2.b2.b2.Both?
    ensures DecodeBabeEpoch(Encode(BABE_EPOCH, v) + tail) == Some((v.b2.b2.b2.a, v.b2.b2.b2.b2))
  {
    assert Fits(BABE_EPOCH.snd, v.b2) && Fits(BABE_EPOCH.snd.snd, v.b2.b2);
    RoundTrip(BABE_EPOCH, v, tail);
  }
}

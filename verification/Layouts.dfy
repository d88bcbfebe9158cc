/** The bytes of the runtime-call results, written out: what the decoders accept, and what they make of it. */
module Layouts {
  import opened Prelude
  import opened Scale
  import opened Decoders
  import opened Disputes
  import T = TrackerSpec

  /*** Lists and byte strings ***/

  function Joined(items: seq<Bytes>): Bytes { if items == [] then [] else items[0] + Joined(items[1..]) }

  /** A list: its compact length and its items one after the other. */
  function Counted(items: seq<Bytes>): Bytes
    requires |items| < TWO_32
  {
    CompactBytes(|items|) + Joined(items)
  }

  function Blob(b: Bytes): Bytes
    requires |b| < TWO_32
  {
    CompactBytes(|b|) + b
  }

  lemma {:induction false} ManyJoined(elem: Shape, vs: seq<Val>, items: seq<Bytes>)
    requires |items| == |vs| && forall i :: 0 <= i < |vs| ==> Fits(elem, vs[i]) && Encode(elem, vs[i]) == items[i]
    ensures EncodeMany(elem, vs) == Joined(items)
  {
    hide Encode, Fits;
    if vs != [] {
      ManyJoined(elem, vs[1..], items[1..]);
    }
  }

  function BlobVal(b: Bytes): Val { List(seq(|b|, i requires 0 <= i < |b| => Num(b[i]))) }

  lemma BlobFits(b: Bytes)
    requires |b| < TWO_32
    ensures Fits(BLOB, BlobVal(b)) && Encode(BLOB, BlobVal(b)) == Blob(b)
  {
    Pow256Values();
    BytesJoined(BlobVal(b).vs, b);
  }

  lemma {:induction false} BytesJoined(vs: seq<Val>, b: Bytes)
    requires |vs| == |b| && forall i :: 0 <= i < |vs| ==> vs[i] == Num(b[i])
    ensures forall i :: 0 <= i < |vs| ==> Fits(Uint(1), vs[i])
    ensures EncodeMany(Uint(1), vs) == b
  {
    Pow256Values();
    if vs != [] {
      BytesJoined(vs[1..], b[1..]);
      assert LeBytes(b[0], 1) == [b[0]] + LeBytes(0, 0);
      assert b == [b[0]] + b[1..];
    }
  }

  /** A fitting list of bytes is the value of a byte string. */
  lemma BlobIsBytes(v: Val) returns (b: Bytes)
    requires Fits(BLOB, v)
    ensures v == BlobVal(b) && |b| < TWO_32
  {
    Pow256Values();
    assert forall i :: 0 <= i < |v.vs| ==> Fits(Uint(1), v.vs[i]);
    b := seq(|v.vs|, i requires 0 <= i < |v.vs| => v.vs[i].n);
    assert BlobVal(b).vs == v.vs;
  }

  /*** Candidate events ***/

  /** One event as the runtime writes it; a timed out one has no group. */
  datatype WireEvent = WireEvent(
    eventType: EventType, para: u32, parent: Bytes, rest: Bytes, head: Bytes, core: u32, group: u32)
  {
    predicate Valid() { |parent| == 32 && |rest| == 288 && |head| < TWO_32 && (eventType.TimedOut? ==> group == 0) }
  }

  function TagOf(t: EventType): u8 {
    match t
    case Backed => 0
    case Included => 1
    case TimedOut => 2
  }

  function Receipt(e: WireEvent): Bytes { LeBytes(e.para, 4) + (e.parent + e.rest) }

  function Indices(e: WireEvent): Bytes {
    LeBytes(e.core, 4) + if e.eventType.TimedOut? then [] else LeBytes(e.group, 4)
  }

  function EventBytes(e: WireEvent): Bytes
    requires e.Valid()
  {
    [TagOf(e.eventType)] + (Receipt(e) + (Blob(e.head) + Indices(e)))
  }

  function Meaning(e: WireEvent, hasher: Bytes -> Hash): CandidateEvent {
    CandidateEvent(hasher(Receipt(e)), LeNat(e.parent), e.para, e.eventType, e.core)
  }

  function ReceiptVal(e: WireEvent): Val { Both(Num(e.para), Both(Raw(e.parent), Raw(e.rest))) }

  function IndicesVal(e: WireEvent): Val {
    if e.eventType.TimedOut? then Num(e.core) else Both(Num(e.core), Num(e.group))
  }

  function EventVal(e: WireEvent): Val {
    Tagged(TagOf(e.eventType), Both(ReceiptVal(e), Both(BlobVal(e.head), IndicesVal(e))))
  }

  lemma ReceiptFits(e: WireEvent)
    requires e.Valid()
    ensures Fits(RECEIPT, ReceiptVal(e)) && Encode(RECEIPT, ReceiptVal(e)) == Receipt(e)
  {
    Pow256Values();
    assert Fits(RECEIPT.snd, ReceiptVal(e).b2);
    assert Encode(RECEIPT.snd, ReceiptVal(e).b2) == e.parent + e.rest;
  }

  lemma EventFits(e: WireEvent)
    requires e.Valid()
    ensures Fits(CANDIDATE_EVENT, EventVal(e)) && Encode(CANDIDATE_EVENT, EventVal(e)) == EventBytes(e)
  {
    Pow256Values();
    ReceiptFits(e);
    BlobFits(e.head);
    var v := EventVal(e);
    if e.eventType.TimedOut? {
      PairEncodes(BLOB, U32, v.v.b2);
      PairEncodes(RECEIPT, UNGROUPED.snd, v.v);
      assert Indices(e) == LeBytes(e.core, 4);
      assert Fits(TIMED_OUT, v) && Fits(INCLUDED_OR_LATER, v);
    } else {
      PairEncodes(U32, U32, v.v.b2.b2);
      PairEncodes(BLOB, GROUPED.snd.snd, v.v.b2);
      PairEncodes(RECEIPT, GROUPED.snd, v.v);
      assert Fits(GROUPED, v.v);
      assert e.eventType.Included? ==> Fits(INCLUDED_OR_LATER, v);
    }
    EventEncoding(v);
  }

  lemma PairEncodes(fst: Shape, snd: Shape, v: Val)
    requires v.Both? && Fits(fst, v.a) && Fits(snd, v.b2)
    ensures Fits(Pair(fst, snd), v) && Encode(Pair(fst, snd), v) == Encode(fst, v.a) + Encode(snd, v.b2)
  {
  }

  lemma EventReads(e: WireEvent, hasher: Bytes -> Hash)
    requires e.Valid() && Fits(CANDIDATE_EVENT, EventVal(e))
    ensures ToEvent(EventVal(e), hasher) == Meaning(e, hasher)
  {
    ReceiptFits(e);
  }

  /** Every fitting value is that of one event. */
  lemma EventIsWire(v: Val) returns (e: WireEvent)
    requires Fits(CANDIDATE_EVENT, v)
    ensures e.Valid() && v == EventVal(e)
  {
    Pow256Values();
    EventParts(v);
    ReceiptParts(v.v.a);
    var receipt := v.v.a;
    var head := BlobIsBytes(v.v.b2.a);
    var t := if v.t == 0 then Backed else if v.t == 1 then Included else TimedOut;
    if v.t < 2 {
      assert Fits(U32, v.v.b2.b2.b2);
      e := WireEvent(t, receipt.a.n, receipt.b2.a.b, receipt.b2.b2.b, head, v.v.b2.b2.a.n, v.v.b2.b2.b2.n);
    } else {
      e := WireEvent(t, receipt.a.n, receipt.b2.a.b, receipt.b2.b2.b, head, v.v.b2.b2.n, 0);
    }
  }

  ghost predicate ValidEvents(es: seq<WireEvent>) {
    |es| < TWO_32 && forall i :: 0 <= i < |es| ==> es[i].Valid()
  }

  function EncodeEvents(es: seq<WireEvent>): Bytes
    requires ValidEvents(es)
  {
    Counted(seq(|es|, i requires 0 <= i < |es| => EventBytes(es[i])))
  }

  function Meanings(es: seq<WireEvent>, hasher: Bytes -> Hash): seq<CandidateEvent> {
    seq(|es|, i requires 0 <= i < |es| => Meaning(es[i], hasher))
  }

  function EventVals(es: seq<WireEvent>): seq<Val> { seq(|es|, i requires 0 <= i < |es| => EventVal(es[i])) }

  lemma EventValsFit(es: seq<WireEvent>)
    requires ValidEvents(es)
    ensures Fits(VecOf(CANDIDATE_EVENT), List(EventVals(es)))
    ensures Encode(VecOf(CANDIDATE_EVENT), List(EventVals(es))) == EncodeEvents(es)
  {
    forall i | 0 <= i < |es|
      ensures Fits(CANDIDATE_EVENT, EventVals(es)[i])
      ensures Encode(CANDIDATE_EVENT, EventVals(es)[i]) == EventBytes(es[i])
    {
      EventFits(es[i]);
    }
    hide EventBytes, EventVal;
    ManyJoined(CANDIDATE_EVENT, EventVals(es), seq(|es|, i requires 0 <= i < |es| => EventBytes(es[i])));
  }

  /** Encoded events decode to what they say: type, para, relay parent, core, and the hash of the receipt. */
  lemma EventsDecode(es: seq<WireEvent>, hasher: Bytes -> Hash)
    requires ValidEvents(es)
    ensures DecodeCandidateEvents(EncodeEvents(es), hasher) == Some(Meanings(es, hasher))
  {
    EventsAccepted(es);
    EventsRead(es, hasher);
    hide EncodeEvents, EventVals, ToEvent, Fits, DecodeAll;
    assert DecodeCandidateEvents(EncodeEvents(es), hasher).value == Meanings(es, hasher);
  }

  lemma EventsAccepted(es: seq<WireEvent>)
    requires ValidEvents(es)
    ensures DecodeAll(VecOf(CANDIDATE_EVENT), EncodeEvents(es)) == Some(List(EventVals(es)))
  {
    var b, vs := EncodeEvents(es), EventVals(es);
    EventValsFit(es);
    RoundTrip(VecOf(CANDIDATE_EVENT), List(vs), []);
    assert b + [] == b;
  }

  lemma EventsRead(es: seq<WireEvent>, hasher: Bytes -> Hash)
    requires ValidEvents(es)
    ensures |EventVals(es)| == |es|
    ensures forall i :: 0 <= i < |es| ==>
              Fits(CANDIDATE_EVENT, EventVals(es)[i]) && ToEvent(EventVals(es)[i], hasher) == Meanings(es, hasher)[i]
  {
    forall i | 0 <= i < |es|
      ensures Fits(CANDIDATE_EVENT, EventVals(es)[i])
      ensures ToEvent(EventVals(es)[i], hasher) == Meanings(es, hasher)[i]
    {
      EventFits(es[i]);
      EventReads(es[i], hasher);
    }
  }

  lemma {:induction false} EventsAreWire(vs: seq<Val>) returns (es: seq<WireEvent>)
    requires forall i :: 0 <= i < |vs| ==> Fits(CANDIDATE_EVENT, vs[i])
    ensures |es| == |vs| && forall i :: 0 <= i < |vs| ==> es[i].Valid() && vs[i] == EventVal(es[i])
  {
    if vs == [] {
      es := [];
    } else {
      es := EventsAreWire(Front(vs));
      var e := EventIsWire(Last(vs));
      es := es + [e];
    }
  }

  /**
   The candidate events decoder, exactly: it accepts a byte string and returns these events just when the bytes
   are the encoding of a list of events that say so.
   */
  lemma CandidateEventsExactly(b: Bytes, hasher: Bytes -> Hash, events: seq<CandidateEvent>)
    ensures DecodeCandidateEvents(b, hasher) == Some(events) <==>
            exists es :: ValidEvents(es) && b == EncodeEvents(es) && events == Meanings(es, hasher)
  {
    if es :| ValidEvents(es) && b == EncodeEvents(es) && events == Meanings(es, hasher) {
      EventsDecode(es, hasher);
    }
    if DecodeCandidateEvents(b, hasher) == Some(events) {
      var s := VecOf(CANDIDATE_EVENT);
      EventShape();
      Canonical(s, b);
      var vs := DecodeAll(s, b).value.vs;
      assert b == Encode(s, List(vs)) + [] && Fits(s, List(vs));
      hide *;
      var es := FittingEvents(vs);
      EventsDecode(es, hasher);
      assert ValidEvents(es) && b == EncodeEvents(es) && events == Meanings(es, hasher);
    }
  }

  lemma FittingEvents(vs: seq<Val>) returns (es: seq<WireEvent>)
    requires Fits(VecOf(CANDIDATE_EVENT), List(vs))
    ensures ValidEvents(es) && EncodeEvents(es) == Encode(VecOf(CANDIDATE_EVENT), List(vs))
  {
    es := EventsAreWire(vs);
    hide EventVal;
    EventValsFit(es);
    assert EventVals(es) == vs;
  }

  /*** Disputes ***/

  function BitBytes(bits: seq<bool>): Bytes
    requires |bits| <= MAX_BITS
  {
    CompactBytes(|bits|) + Pack(bits)
  }

  function OptionalIndex(o: Option<u32>): Bytes {
    match o
    case None => [0]
    case Some(n) => [1] + LeBytes(n, 4)
  }

  function DisputeBytes(d: DecodedDispute): Bytes
    requires Encodable(d)
  {
    LeBytes(d.session, 4) + (LeBytes(d.candidateHash, 32) +
      (BitBytes(VoteBits(d.validatorsFor, d.validatorCount)) +
        (BitBytes(VoteBits(d.validatorsAgainst, d.validatorCount)) +
          (LeBytes(d.start, 4) + OptionalIndex(d.concludedAt)))))
  }

  lemma OptionalIndexEncodes(o: Option<u32>)
    ensures Fits(CONCLUDED_AT, OptionVal(o)) && Encode(CONCLUDED_AT, OptionVal(o)) == OptionalIndex(o)
  {
    Pow256Values();
    if o.Some? {
      assert Fits(Case(1, U32, NoCase), OptionVal(o));
    }
  }

  lemma DisputeEncodes(d: DecodedDispute)
    requires Encodable(d)
    ensures Fits(DISPUTE, DisputeVal(d)) && Encode(DISPUTE, DisputeVal(d)) == DisputeBytes(d)
  {
    Pow256Values();
    var v := DisputeVal(d);
    OptionalIndexEncodes(d.concludedAt);
    hide OptionVal, LeBytes, CompactBytes, Pack, CONCLUDED_AT;
    PairEncodes(U32, CONCLUDED_AT, v.b2.b2.b2.b2);
    PairEncodes(Bits, DISPUTE_TAIL, v.b2.b2.b2);
    PairEncodes(Bits, DISPUTE_VOTES.snd, v.b2.b2);
    PairEncodes(H256, DISPUTE_VOTES, v.b2);
    PairEncodes(U32, DISPUTE.snd, v);
  }

  /** The encoder of the round trip, byte by byte: session, candidate, votes for, votes against, start, conclusion. */
  lemma DisputesLayout(ds: seq<DecodedDispute>)
    requires |ds| < TWO_32 && forall i :: 0 <= i < |ds| ==> Encodable(ds[i])
    ensures EncodeDisputes(ds) == Counted(seq(|ds|, i requires 0 <= i < |ds| => DisputeBytes(ds[i])))
  {
    forall i | 0 <= i < |ds|
      ensures Fits(DISPUTE, DisputeVals(ds)[i]) && Encode(DISPUTE, DisputeVals(ds)[i]) == DisputeBytes(ds[i])
    {
      DisputeEncodes(ds[i]);
    }
    hide DisputeBytes, DisputeVal, Encodable;
    ManyJoined(DISPUTE, DisputeVals(ds), seq(|ds|, i requires 0 <= i < |ds| => DisputeBytes(ds[i])));
  }

  /*** Availability cores ***/

  datatype WireScheduled = WireScheduled(para: u32, collator: Option<Bytes>) {
    predicate Valid() { collator.Some? ==> |collator.value| == 32 }
  }

  datatype WireCore =
    | WireOccupied(nextUp: Option<WireScheduled>, since: u32, timeOut: u32, nextOnTimeOut: Option<WireScheduled>,
                   availability: seq<bool>, group: u32, candidate: Bytes, descriptor: Bytes)
    | WireAssigned(s: WireScheduled)
    | WireFree
  {
    predicate Valid() {
      match this
      case WireOccupied(next, _, _, onTimeOut, availability, _, candidate, descriptor) =>
        && (next.Some? ==> next.value.Valid()) && (onTimeOut.Some? ==> onTimeOut.value.Valid())
        && |availability| <= MAX_BITS && |candidate| == 32 && |descriptor| == 292
      case WireAssigned(s) => s.Valid()
      case WireFree => true
    }
  }

  function Optional(o: Option<Bytes>): Bytes { if o.None? then [0] else [1] + o.value }

  function ScheduledBytes(s: WireScheduled): Bytes { LeBytes(s.para, 4) + Optional(s.collator) }

  function OptionalScheduled(o: Option<WireScheduled>): Bytes {
    Optional(if o.None? then None else Some(ScheduledBytes(o.value)))
  }

  function CoreBytes(c: WireCore): Bytes
    requires c.Valid()
  {
    match c
    case WireOccupied(next, since, timeOut, onTimeOut, availability, group, candidate, descriptor) =>
      [0] + (OptionalScheduled(next) + (LeBytes(since, 4) + (LeBytes(timeOut, 4) + (OptionalScheduled(onTimeOut) +
        (BitBytes(availability) + (LeBytes(group, 4) + (candidate + descriptor)))))))
    case WireAssigned(s) => [1] + ScheduledBytes(s)
    case WireFree => [2]
  }

  function StateOf(c: WireCore): T.CoreOccupied {
    match c
    case WireOccupied(_, _, _, _, _, _, _, _) => T.Occupied
    case WireAssigned(_) => T.Scheduled
    case WireFree => T.Free
  }

  function ScheduledVal(s: WireScheduled): Val {
    Both(Num(s.para), if s.collator.None? then Tagged(0, Nothing) else Tagged(1, Raw(s.collator.value)))
  }

  function OptionalVal(o: Option<WireScheduled>): Val {
    if o.None? then Tagged(0, Nothing) else Tagged(1, ScheduledVal(o.value))
  }

  function CoreVal(c: WireCore): Val {
    match c
    case WireOccupied(next, since, timeOut, onTimeOut, availability, group, candidate, descriptor) =>
      Tagged(0, Both(OptionalVal(next), Both(Num(since), Both(Num(timeOut), Both(OptionalVal(onTimeOut),
        Both(BitList(availability), Both(Num(group), Both(Raw(candidate), Raw(descriptor)))))))))
    case WireAssigned(s) => Tagged(1, ScheduledVal(s))
    case WireFree => Tagged(2, Nothing)
  }

  lemma OptionEncodes(s: Shape, v: Val)
    requires v == Tagged(0, Nothing) || (v.Tagged? && v.t == 1 && Fits(s, v.v))
    ensures Fits(OptionOf(s), v)
    ensures Encode(OptionOf(s), v) == if v.t == 0 then [0] else [1] + Encode(s, v.v)
  {
    if v.t == 1 {
      assert Fits(Case(1, s, NoCase), v);
    }
  }

  lemma ScheduledEncodes(s: WireScheduled)
    requires s.Valid()
    ensures Fits(SCHEDULED, ScheduledVal(s)) && Encode(SCHEDULED, ScheduledVal(s)) == ScheduledBytes(s)
  {
    Pow256Values();
    OptionEncodes(H256, ScheduledVal(s).b2);
    hide OptionOf;
    PairEncodes(U32, OptionOf(H256), ScheduledVal(s));
  }

  lemma OptionalEncodes(o: Option<WireScheduled>)
    requires o.Some? ==> o.value.Valid()
    ensures Fits(OptionOf(SCHEDULED), OptionalVal(o))
    ensures Encode(OptionOf(SCHEDULED), OptionalVal(o)) == OptionalScheduled(o)
  {
    if o.Some? {
      ScheduledEncodes(o.value);
    }
    hide SCHEDULED, ScheduledVal, ScheduledBytes;
    OptionEncodes(SCHEDULED, OptionalVal(o));
  }

  lemma OccupiedEncodes(c: WireCore)
    requires c.WireOccupied? && c.Valid()
    ensures Fits(OCCUPIED, CoreVal(c).v) && [0] + Encode(OCCUPIED, CoreVal(c).v) == CoreBytes(c)
  {
    Pow256Values();
    OptionalEncodes(c.nextUp);
    OptionalEncodes(c.nextOnTimeOut);
    var v := CoreVal(c).v;
    hide OptionalVal, OptionalScheduled, LeBytes, CompactBytes, Pack, OptionOf;
    var rest3 := OCCUPIED.snd.snd.snd;
    PairEncodes(H256, Fixed(DESCRIPTOR_SIZE), v.b2.b2.b2.b2.b2.b2);
    PairEncodes(U32, rest3.snd.snd.snd, v.b2.b2.b2.b2.b2);
    PairEncodes(Bits, rest3.snd.snd, v.b2.b2.b2.b2);
    PairEncodes(OptionOf(SCHEDULED), rest3.snd, v.b2.b2.b2);
    PairEncodes(U32, rest3, v.b2.b2);
    PairEncodes(U32, OCCUPIED.snd.snd, v.b2);
    PairEncodes(OptionOf(SCHEDULED), OCCUPIED.snd, v);
  }

  lemma CoreEncodes(c: WireCore)
    requires c.Valid()
    ensures Fits(CORE_STATE, CoreVal(c)) && Encode(CORE_STATE, CoreVal(c)) == CoreBytes(c)
    ensures ToCore(CoreVal(c)) == StateOf(c)
  {
    var v := CoreVal(c);
    if c.WireOccupied? {
      OccupiedEncodes(c);
      hide OCCUPIED;
      assert Fits(CORE_STATE, v);
    } else if c.WireAssigned? {
      ScheduledEncodes(c.s);
      hide OCCUPIED, SCHEDULED;
      assert Fits(CORE_STATE.others, v);
    } else {
      hide OCCUPIED, SCHEDULED;
      assert Fits(CORE_STATE.others.others, v) && Fits(CORE_STATE.others, v);
      assert Encode(CORE_STATE.others.others, v) == [2] + [];
    }
  }

  /** Encoded core states decode to their variants, in order. */
  lemma CoresDecode(cs: seq<WireCore>)
    requires |cs| < TWO_32 && forall i :: 0 <= i < |cs| ==> cs[i].Valid()
    ensures DecodeAvailabilityCores(Counted(seq(|cs|, i requires 0 <= i < |cs| => CoreBytes(cs[i])))) ==
            Some(seq(|cs|, i requires 0 <= i < |cs| => StateOf(cs[i])))
  {
    var vs := seq(|cs|, i requires 0 <= i < |cs| => CoreVal(cs[i]));
    forall i | 0 <= i < |cs|
      ensures Fits(CORE_STATE, vs[i]) && Encode(CORE_STATE, vs[i]) == CoreBytes(cs[i])
      ensures ToCore(vs[i]) == StateOf(cs[i])
    {
      CoreEncodes(cs[i]);
    }
    hide CORE_STATE, CoreBytes, CoreVal, ToCore, StateOf;
    ManyJoined(CORE_STATE, vs, seq(|cs|, i requires 0 <= i < |cs| => CoreBytes(cs[i])));
    assert Encode(VecOf(CORE_STATE), List(vs)) == Counted(seq(|cs|, i requires 0 <= i < |cs| => CoreBytes(cs[i])));
    AvailabilityCoresRoundTrip(vs);
    assert seq(|vs|, i requires 0 <= i < |vs| => ToCore(vs[i])) ==
           seq(|cs|, i requires 0 <= i < |cs| => StateOf(cs[i]));
  }

  /*** The current epoch ***/

  datatype Authority = Authority(key: Bytes, weight: nat) {
    predicate Valid() { |key| == 32 && weight < Pow256(8) }
  }

  function AuthorityBytes(a: Authority): Bytes { a.key + LeBytes(a.weight, 8) }
  function AuthorityVal(a: Authority): Val { Both(Raw(a.key), Num(a.weight)) }
  function AuthorityVals(l: seq<Authority>): Val { List(seq(|l|, i requires 0 <= i < |l| => AuthorityVal(l[i]))) }

  /** Three numbers of eight bytes, the authorities, the randomness; whatever follows is not read. */
  lemma EpochDecodes(index: Bytes, start: Bytes, duration: Bytes, l: seq<Authority>, randomness: Bytes, tail: Bytes)
    requires |index| == 8 && |start| == 8 && |duration| == 8 && |randomness| == 32
    requires |l| < TWO_32 && forall i :: 0 <= i < |l| ==> l[i].Valid()
    ensures DecodeBabeEpoch(index + (start + (duration +
              (Counted(seq(|l|, i requires 0 <= i < |l| => AuthorityBytes(l[i]))) + randomness))) + tail) ==
            Some((AuthorityVals(l), Raw(randomness)))
  {
    LeBack(index);
    LeBack(start);
    LeBack(duration);
    AuthoritiesEncode(l);
    hide AuthorityVals, LeBytes, LeNat, Counted, AUTHORITIES;
    var last := Both(AuthorityVals(l), Raw(randomness));
    var v := Both(Num(LeNat(index)), Both(Num(LeNat(start)), Both(Num(LeNat(duration)), last)));
    PairEncodes(AUTHORITIES, H256, last);
    PairEncodes(U64, BABE_EPOCH.snd.snd.snd, v.b2.b2);
    PairEncodes(U64, BABE_EPOCH.snd.snd, v.b2);
    PairEncodes(U64, BABE_EPOCH.snd, v);
    BabeEpochRoundTrip(v, tail);
  }

  lemma AuthoritiesEncode(l: seq<Authority>)
    requires |l| < TWO_32 && forall i :: 0 <= i < |l| ==> l[i].Valid()
    ensures Fits(AUTHORITIES, AuthorityVals(l))
    ensures Encode(AUTHORITIES, AuthorityVals(l)) ==
            Counted(seq(|l|, i requires 0 <= i < |l| => AuthorityBytes(l[i])))
  {
    var vs := AuthorityVals(l).vs;
    forall i | 0 <= i < |l|
      ensures Fits(Pair(H256, U64), vs[i]) && Encode(Pair(H256, U64), vs[i]) == AuthorityBytes(l[i])
    {
      PairEncodes(H256, U64, vs[i]);
    }
    hide AuthorityBytes, AuthorityVal;
    ManyJoined(Pair(H256, U64), vs, seq(|l|, i requires 0 <= i < |l| => AuthorityBytes(l[i])));
  }
}

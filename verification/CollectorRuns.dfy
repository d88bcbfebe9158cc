/** Runs of the collector: what its channels receive, against everything it accepted. */
module CollectorRuns {
  import opened Prelude
  import opened StoreSpec
  import opened CollectorSpec
  import D = Disputes
  import T = TrackerSpec

  /*** What an event carries, field by field ***/

  datatype Field = Hashes | BackedField | IncludedField | TimedOutField | SeenField | ConcludedField | AuthorsField

  datatype Item = OfHash(h: Hash) | OfBacked(b: T.BackedCandidateInfo) | OfDispute(d: DisputeInfo) | OfAuthor(a: Author)

  /** An item and the relay height it belongs to. */
  datatype Tagged = At(height: u32, item: Item)

  function HashItems(hs: seq<Hash>): seq<Item> { seq(|hs|, i requires 0 <= i < |hs| => OfHash(hs[i])) }

  function BackedItems(bs: seq<T.BackedCandidateInfo>): seq<Item> {
    seq(|bs|, i requires 0 <= i < |bs| => OfBacked(bs[i]))
  }

  function DisputeItems(ds: seq<DisputeInfo>): seq<Item> { seq(|ds|, i requires 0 <= i < |ds| => OfDispute(ds[i])) }

  function AuthorItems(authors: seq<Author>): seq<Item> {
    seq(|authors|, i requires 0 <= i < |authors| => OfAuthor(authors[i]))
  }

  function Contents(e: NewHeadEvent, f: Field): seq<Item> {
    match f
    case Hashes => HashItems(e.hashes)
    case BackedField => BackedItems(e.backed)
    case IncludedField => HashItems(e.included)
    case TimedOutField => HashItems(e.timedOut)
    case SeenField => HashItems(e.seen)
    case ConcludedField => DisputeItems(e.disputesConcluded)
    case AuthorsField => AuthorItems(e.authorsMissing)
  }

  function Tag(height: u32, items: seq<Item>): seq<Tagged> {
    seq(|items|, i requires 0 <= i < |items| => At(height, items[i]))
  }

  /** Everything sent to `p` in one field, each item under the height of the event that carried it. */
  function Sent(rounds: seq<Round>, p: ParaId, f: Field): seq<Tagged> {
    if rounds == [] then []
    else if p in Last(rounds) then Sent(Front(rounds), p, f) + Tag(Last(rounds)[p].number, Contents(Last(rounds)[p], f))
    else Sent(Front(rounds), p, f)
  }

  /*** What the collector accepted ***/

  /** A stored header decides; without one the node is asked. */
  predicate HeaderKnown(st: Store, relayParent: Hash, fetched: Option<u32>) {
    var e := GetPrefix(st, RelayBlockHeader, relayParent);
    if e.Some? then e.value.data.HeaderData? else fetched.Some?
  }

  /** A backing is new to the store and its relay parent is known; an outcome concerns a stored candidate. */
  ghost predicate AcceptsCandidate(s: State, ev: CandidateEvent, fetched: Option<u32>) {
    var p, k := ev.parachainId, ev.candidateHash;
    if ev.eventType.Backed? then
      && !Stored(s.store.records, CandidateOf(p), k)
      && !Stored(s.store.records, CandidatesParachains, k)
      && HeaderKnown(PointerWritten(s, ev), ev.relayParent, fetched)
    else CandidateAt(s.store, p, k).Some?
  }

  /** A conclusion whose candidate and dispute are both stored. */
  function AcceptedConclusion(s: State, d: D.SubxtDispute, outcome: D.Outcome): Option<DisputeInfo> {
    match FindCandidate(s.store, d.candidateHash)
    case None => None
    case Some(c) =>
      match GetPrefix(s.store, DisputeOf(c.parachainId), d.candidateHash)
      case Some(e) =>
        if e.data.DisputeData? then Some(e.data.d.(outcome := Some(outcome), concluded := Some(s.number))) else None
      case None => None
  }

  /** An accepted candidate event shows in its own list of every para, and in the seen list of its own para. */
  function CandidateItem(height: u32, ev: CandidateEvent, p: ParaId, f: Field): Option<Tagged> {
    if f.BackedField? && ev.eventType.Backed?
    then Some(At(height, OfBacked(T.BackedCandidateInfo(ev.candidateHash, ev.coreIdx, ev.parachainId))))
    else if (f.IncludedField? && ev.eventType.Included?) || (f.TimedOutField? && ev.eventType.TimedOut?) ||
            (f.SeenField? && ev.parachainId == p)
    then Some(At(height, OfHash(ev.candidateHash)))
    else None
  }

  /** The one item, if any, that an operation adds to a field of `p`'s events, under its relay height. */
  ghost function NewItem(s: State, op: Op, p: ParaId, f: Field): Option<Tagged> {
    match op
    case Head(number, hash) =>
      if f.Hashes? && number >= s.number then Some(At(number, OfHash(hash))) else None
    case Candidate(ev, fetched) =>
      if AcceptsCandidate(s, ev, fetched) then CandidateItem(s.number, ev, p, f) else None
    case Concludes(d, outcome) =>
      var info := AcceptedConclusion(s, d, outcome);
      if f.ConcludedField? && info.Some? && FindCandidate(s.store, d.candidateHash).value.parachainId == p
      then Some(At(s.number, OfDispute(info.value)))
      else None
    case AuthorMissed(author) => if f.AuthorsField? then Some(At(s.number, OfAuthor(author))) else None
    case _ => None
  }

  ghost function Accepted(cfg: Config, maxBlocks: nat, ops: seq<Op>, p: ParaId, f: Field): seq<Tagged> {
    if ops == [] then []
    else
      var before := Accepted(cfg, maxBlocks, Front(ops), p, f);
      match NewItem(Run(cfg, maxBlocks, Front(ops)), Last(ops), p, f)
      case Some(t) => before + [t]
      case None => before
  }

  /*** One step ***/

  ghost predicate Publishes(s: State, op: Op) { op.Head? && op.number > s.number }

  /** The items not yet sent to `p`: those of the event that would be sent now. */
  function Unsent(s: State, p: ParaId, f: Field): seq<Tagged> { Tag(s.number, Contents(HeadEvent(s, p), f)) }

  ghost predicate Extends(a: seq<Tagged>, b: seq<Tagged>, t: Option<Tagged>) {
    b == match t case Some(x) => a + [x] case None => a
  }

  lemma ConcludedSnoc(ds: seq<DisputeInfo>, d: DisputeInfo)
    ensures Concluded(ds + [d]) == if d.concluded.Some? then Concluded(ds) + [d] else Concluded(ds)
  {
    assert Front(ds + [d]) == ds;
  }

  lemma HeadStep(s: State, cfg: Config, op: Op, p: ParaId, f: Field)
    requires op.Head? && !Publishes(s, op)
    ensures Extends(Unsent(s, p, f), Unsent(Step(s, cfg, op), p, f), NewItem(s, op, p, f))
  {
  }

  /** The state without its store: all that events and the broadcast set are made from. */
  function Visible(s: State): State { s.(store := PrefixedStore(0, None, map[], map[])) }

  lemma SameVisible(a: State, b: State, p: ParaId, f: Field)
    requires Visible(a) == Visible(b)
    ensures Unsent(a, p, f) == Unsent(b, p, f)
  {
    assert a == b.(store := a.store);
  }

  function WithOutcome(s: State, ev: CandidateEvent): State {
    var seen := s.(seen := Push(s.seen, ev.parachainId, ev.candidateHash));
    match ev.eventType
    case Backed => seen.(backed := s.backed + [T.BackedCandidateInfo(ev.candidateHash, ev.coreIdx, ev.parachainId)])
    case Included => seen.(included := s.included + [ev.candidateHash])
    case TimedOut => seen.(timedOut := s.timedOut + [ev.candidateHash])
  }

  lemma BackedEffect(s: State, ev: CandidateEvent, fetched: Option<u32>)
    requires ev.eventType.Backed?
    ensures Visible(ProcessBacked(s, ev, fetched)) ==
            Visible(if AcceptsCandidate(s, ev, fetched) then WithOutcome(s, ev) else s)
  {
  }

  lemma OutcomeEffect(s: State, ev: CandidateEvent, fetched: Option<u32>)
    requires !ev.eventType.Backed?
    ensures Visible(ProcessOutcome(s, ev)) ==
            Visible(if AcceptsCandidate(s, ev, fetched) then WithOutcome(s, ev) else s)
  {
  }

  lemma TagSnoc(height: u32, hs: seq<Hash>, h: Hash)
    ensures Tag(height, HashItems(hs + [h])) == Tag(height, HashItems(hs)) + [At(height, OfHash(h))]
  {
  }

  lemma TagBacked(height: u32, bs: seq<T.BackedCandidateInfo>, b: T.BackedCandidateInfo)
    ensures Tag(height, BackedItems(bs + [b])) == Tag(height, BackedItems(bs)) + [At(height, OfBacked(b))]
  {
  }

  lemma OutcomeItems(s: State, ev: CandidateEvent, p: ParaId, f: Field)
    ensures Extends(Unsent(s, p, f), Unsent(WithOutcome(s, ev), p, f), CandidateItem(s.number, ev, p, f))
  {
    var s' := WithOutcome(s, ev);
    match f
    case SeenField => TagSnoc(s.number, GetList(s.seen, p), ev.candidateHash);
    case IncludedField => TagSnoc(s.number, s.included, ev.candidateHash);
    case TimedOutField => TagSnoc(s.number, s.timedOut, ev.candidateHash);
    case BackedField => TagBacked(s.number, s.backed,
                                  T.BackedCandidateInfo(ev.candidateHash, ev.coreIdx, ev.parachainId));
    case Hashes => assert s'.hashes == s.hashes;
    case ConcludedField => assert s'.disputesSeen == s.disputesSeen;
    case AuthorsField => assert s'.authorsMissing == s.authorsMissing;
  }

  lemma CandidateStep(s: State, cfg: Config, op: Op, p: ParaId, f: Field)
    requires op.Candidate?
    ensures Extends(Unsent(s, p, f), Unsent(Step(s, cfg, op), p, f), NewItem(s, op, p, f))
  {
    if op.ev.eventType.Backed? {
      BackedEffect(s, op.ev, op.fetched);
    } else {
      OutcomeEffect(s, op.ev, op.fetched);
    }
    if AcceptsCandidate(s, op.ev, op.fetched) {
      SameVisible(Step(s, cfg, op), WithOutcome(s, op.ev), p, f);
      OutcomeItems(s, op.ev, p, f);
    } else {
      SameVisible(Step(s, cfg, op), s, p, f);
    }
  }

  function WithDispute(s: State, p: ParaId, info: DisputeInfo): State {
    s.(disputesSeen := Push(s.disputesSeen, p, info))
  }

  lemma DisputeNoted(s: State, q: ParaId, info: DisputeInfo, p: ParaId, f: Field)
    ensures Unsent(WithDispute(s, q, info), p, f) ==
            if f.ConcludedField? && p == q && info.concluded.Some?
            then Unsent(s, p, f) + [At(s.number, OfDispute(info))]
            else Unsent(s, p, f)
  {
    var s' := WithDispute(s, q, info);
    var ds := GetList(s.disputesSeen, p);
    assert GetList(s'.disputesSeen, p) == if p == q then ds + [info] else ds;
    if f.ConcludedField? && p == q {
      ConcludedSnoc(ds, info);
      hide Concluded;
      if info.concluded.Some? {
        TagDispute(s.number, Concluded(ds), info);
      }
    } else {
      hide Concluded;
      assert Contents(HeadEvent(s', p), f) == Contents(HeadEvent(s, p), f);
    }
  }

  lemma TagDispute(height: u32, ds: seq<DisputeInfo>, d: DisputeInfo)
    ensures Tag(height, DisputeItems(ds + [d])) == Tag(height, DisputeItems(ds)) + [At(height, OfDispute(d))]
  {
  }

  lemma InitiatedStep(s: State, cfg: Config, op: Op, p: ParaId, f: Field)
    requires op.Initiated?
    ensures Unsent(Step(s, cfg, op), p, f) == Unsent(s, p, f)
  {
    var found, who := FindCandidate(s.store, op.d.candidateHash), Initiators(s, op.d);
    if found.Some? && who.Some? {
      var q := found.value.parachainId;
      var info := NewDispute(s, op.d, q, who.value);
      assert Visible(Step(s, cfg, op)) == Visible(WithDispute(s, q, info));
      SameVisible(Step(s, cfg, op), WithDispute(s, q, info), p, f);
      DisputeNoted(s, q, info, p, f);
    }
  }

  lemma AuthorStep(s: State, cfg: Config, op: Op, p: ParaId, f: Field)
    requires op.AuthorMissed?
    ensures Extends(Unsent(s, p, f), Unsent(Step(s, cfg, op), p, f), NewItem(s, op, p, f))
  {
    if f.AuthorsField? {
      TagAuthor(s.number, s.authorsMissing, op.author);
    }
  }

  lemma TagAuthor(height: u32, authors: seq<Author>, a: Author)
    ensures Tag(height, AuthorItems(authors + [a])) == Tag(height, AuthorItems(authors)) + [At(height, OfAuthor(a))]
  {
  }

  lemma ConcludedEffect(s: State, d: D.SubxtDispute, outcome: D.Outcome)
    ensures var info := AcceptedConclusion(s, d, outcome);
            Visible(ProcessConcluded(s, d, outcome)) ==
            Visible(if info.Some? then WithDispute(s, FindCandidate(s.store, d.candidateHash).value.parachainId,
                                                   info.value) else s)
  {
  }

  lemma ConcludesStep(s: State, cfg: Config, op: Op, p: ParaId, f: Field)
    requires op.Concludes?
    ensures Extends(Unsent(s, p, f), Unsent(Step(s, cfg, op), p, f), NewItem(s, op, p, f))
  {
    var info := AcceptedConclusion(s, op.d, op.outcome);
    ConcludedEffect(s, op.d, op.outcome);
    if info.Some? {
      var q := FindCandidate(s.store, op.d.candidateHash).value.parachainId;
      SameVisible(Step(s, cfg, op), WithDispute(s, q, info.value), p, f);
      DisputeNoted(s, q, info.value, p, f);
    } else {
      SameVisible(Step(s, cfg, op), s, p, f);
    }
  }

  /** Publishing sends exactly the unsent items and starts the next height with its first hash. */
  lemma PublishStep(s: State, cfg: Config, op: Op, p: ParaId, f: Field)
    requires Publishes(s, op)
    ensures Extends([], Unsent(Step(s, cfg, op), p, f), NewItem(s, op, p, f))
  {
  }

  lemma SameEvents(s: State, sent: State)
    requires sent == s.(subscribed := sent.subscribed)
    ensures forall paras: set<ParaId>, whole: bool :: EventsFor(sent, paras, whole) == EventsFor(s, paras, whole)
    ensures forall maxStall: u32 :: ActiveParas(sent, maxStall) == ActiveParas(s, maxStall)
  {
    forall paras: set<ParaId>, whole: bool
      ensures EventsFor(sent, paras, whole) == EventsFor(s, paras, whole)
    {
      assert forall p :: EventFor(sent, p, whole) == EventFor(s, p, whole);
    }
    forall maxStall: u32
      ensures ActiveParas(sent, maxStall) == ActiveParas(s, maxStall)
    {
      assert Refreshed(sent) == Refreshed(s);
    }
  }

  /** Publishing sends one round. */
  lemma PublishRounds(s: State, cfg: Config, op: Op)
    requires Publishes(s, op)
    ensures Step(s, cfg, op).subscribed == s.subscribed + [EventsFor(s, cfg.subscribers, true)]
    ensures Step(s, cfg, op).broadcast ==
            if cfg.broadcasting then s.broadcast + [EventsFor(s, ActiveParas(s, cfg.maxStall).Keys, false)]
            else s.broadcast
    ensures Step(s, cfg, op).parasSeen == if cfg.broadcasting then ActiveParas(s, cfg.maxStall) else s.parasSeen
    ensures Step(s, cfg, op).seen == map[] && Step(s, cfg, op).number == op.number
  {
    SameEvents(s, CollectorSpec.Publish(s, cfg));
  }

  ghost predicate SameSends(a: State, b: State) {
    a.subscribed == b.subscribed && a.broadcast == b.broadcast && a.number == b.number && a.parasSeen == b.parasSeen
  }

  lemma CandidateSendsNothing(s: State, ev: CandidateEvent, fetched: Option<u32>)
    ensures SameSends(s, ProcessCandidate(s, ev, fetched))
  {
    if ev.eventType.Backed? {
      BackedEffect(s, ev, fetched);
    } else {
      OutcomeEffect(s, ev, fetched);
    }
  }

  lemma DisputesSendNothing(s: State, d: D.SubxtDispute, outcome: D.Outcome)
    ensures SameSends(s, ProcessInitiated(s, d)) && ProcessInitiated(s, d).seen == s.seen
    ensures SameSends(s, ProcessConcluded(s, d, outcome)) && ProcessConcluded(s, d, outcome).seen == s.seen
  {
    ConcludedEffect(s, d, outcome);
  }

  /** Nothing else sends anything or changes the height or the broadcast set; a lower head changes nothing at all. */
  lemma QuietStep(s: State, cfg: Config, op: Op)
    requires !Publishes(s, op)
    ensures SameSends(s, Step(s, cfg, op))
    ensures op.Head? && op.number < s.number ==> Step(s, cfg, op) == s
  {
    match op
    case Candidate(ev, fetched) => CandidateSendsNothing(s, ev, fetched);
    case Initiated(d) => DisputesSendNothing(s, d, D.Valid);
    case Concludes(d, outcome) => DisputesSendNothing(s, d, outcome);
    case _ =>
  }

  /*** Conservation of the head stream ***/

  lemma StepItems(s: State, cfg: Config, op: Op, p: ParaId, f: Field)
    ensures Extends(if Publishes(s, op) then [] else Unsent(s, p, f), Unsent(Step(s, cfg, op), p, f),
                    NewItem(s, op, p, f))
  {
    match op
    case Head(number, hash) =>
      if Publishes(s, op) {
        PublishStep(s, cfg, op, p, f);
      } else {
        HeadStep(s, cfg, op, p, f);
      }
    case Candidate(ev, fetched) => CandidateStep(s, cfg, op, p, f);
    case Initiated(d) => InitiatedStep(s, cfg, op, p, f);
    case Concludes(d, outcome) => ConcludesStep(s, cfg, op, p, f);
    case AuthorMissed(author) => AuthorStep(s, cfg, op, p, f);
    case NewSession(index) => assert HeadEvent(Step(s, cfg, op), p) == HeadEvent(s, p);
    case _ => SameVisible(s, Step(s, cfg, op), p, f);
  }

  lemma SentSnoc(rounds: seq<Round>, s: State, paras: set<ParaId>, whole: bool, p: ParaId, f: Field)
    requires whole || !f.AuthorsField?
    ensures Sent(rounds + [EventsFor(s, paras, whole)], p, f) ==
            if p in paras then Sent(rounds, p, f) + Unsent(s, p, f) else Sent(rounds, p, f)
  {
    var round := EventsFor(s, paras, whole);
    assert Front(rounds + [round]) == rounds;
    assert p in paras ==> Contents(round[p], f) == Contents(HeadEvent(s, p), f);
  }

  /** One conservation step for a stream that got a round with `p`, or none at all. */
  lemma ConservesStep(sent: seq<Tagged>, unsent: seq<Tagged>, sent': seq<Tagged>, unsent': seq<Tagged>,
                      total: seq<Tagged>, item: Option<Tagged>, publishes: bool)
    requires sent + unsent == total
    requires sent' == if publishes then sent + unsent else sent
    requires Extends(if publishes then [] else unsent, unsent', item)
    ensures Extends(total, sent' + unsent', item)
  {
    if item.Some? {
      assert sent + (unsent + [item.value]) == (sent + unsent) + [item.value];
    }
  }

  /**
   In every run, each field of the events sent to a subscriber, joined with what the current height
   holds, is exactly what was accepted: in order, once each, and under the height it was accepted at.
   */
  lemma {:induction false} HeadStreamConserves(cfg: Config, maxBlocks: nat, ops: seq<Op>, p: ParaId, f: Field)
    requires p in cfg.subscribers
    ensures var s := Run(cfg, maxBlocks, ops);
            Sent(s.subscribed, p, f) + Unsent(s, p, f) == Accepted(cfg, maxBlocks, ops, p, f)
  {
    if ops != [] {
      var s, op := Run(cfg, maxBlocks, Front(ops)), Last(ops);
      HeadStreamConserves(cfg, maxBlocks, Front(ops), p, f);
      StepItems(s, cfg, op, p, f);
      if Publishes(s, op) {
        PublishRounds(s, cfg, op);
        SentSnoc(s.subscribed, s, cfg.subscribers, true, p, f);
      } else {
        QuietStep(s, cfg, op);
      }
      ConservesStep(Sent(s.subscribed, p, f), Unsent(s, p, f), Sent(Step(s, cfg, op).subscribed, p, f),
                    Unsent(Step(s, cfg, op), p, f), Accepted(cfg, maxBlocks, Front(ops), p, f), NewItem(s, op, p, f),
                    Publishes(s, op));
    }
  }

  /** Later rounds carry strictly larger heights, all below the current one. */
  ghost predicate Ascending(rounds: seq<Round>, number: u32) {
    && (forall i, p :: 0 <= i < |rounds| && p in rounds[i] ==> rounds[i][p].paraId == p && rounds[i][p].number < number)
    && (forall i, j, p, q :: 0 <= i < j < |rounds| && p in rounds[i] && q in rounds[j] ==>
        rounds[i][p].number < rounds[j][q].number)
  }

  lemma AscendingStep(rounds: seq<Round>, s: State, paras: set<ParaId>, whole: bool, number: u32)
    requires Ascending(rounds, s.number) && s.number < number
    ensures Ascending(rounds + [EventsFor(s, paras, whole)], number)
  {
  }

  /** Heights only go up on every channel, whatever heads arrive; each round reaches all subscribers. */
  lemma {:induction false} HeightsIncrease(cfg: Config, maxBlocks: nat, ops: seq<Op>)
    ensures var s := Run(cfg, maxBlocks, ops);
            && Ascending(s.subscribed, s.number) && Ascending(s.broadcast, s.number)
            && forall i :: 0 <= i < |s.subscribed| ==> s.subscribed[i].Keys == cfg.subscribers
  {
    if ops != [] {
      var s, op := Run(cfg, maxBlocks, Front(ops)), Last(ops);
      HeightsIncrease(cfg, maxBlocks, Front(ops));
      if Publishes(s, op) {
        PublishRounds(s, cfg, op);
        AscendingStep(s.subscribed, s, cfg.subscribers, true, op.number);
        AscendingStep(s.broadcast, s, ActiveParas(s, cfg.maxStall).Keys, false, op.number);
      } else {
        QuietStep(s, cfg, op);
      }
    }
  }

  /*** The broadcast set ***/

  ghost predicate SeenAt(accepted: seq<Tagged>, height: u32) { exists t :: t in accepted && t.height == height }

  /** The broadcast set against the heights at which candidate events of `p` were accepted. */
  ghost predicate Tracks(s: State, maxStall: u32, accepted: seq<Tagged>, p: ParaId) {
    && (forall t :: t in accepted ==> t.height <= s.number)
    && (p in s.seen <==> SeenAt(accepted, s.number))
    && (p in s.parasSeen ==> s.parasSeen[p] < s.number && SeenAt(accepted, s.parasSeen[p]))
    && (forall t :: t in accepted && t.height < s.number ==>
          if p in s.parasSeen then t.height <= s.parasSeen[p] else t.height + maxStall < s.number)
  }

  lemma TracksCandidate(s: State, cfg: Config, op: Op, accepted: seq<Tagged>, accepted': seq<Tagged>, p: ParaId)
    requires op.Candidate? && Tracks(s, cfg.maxStall, accepted, p)
    requires Extends(accepted, accepted', NewItem(s, op, p, SeenField))
    ensures Tracks(Step(s, cfg, op), cfg.maxStall, accepted', p)
  {
    CandidateSendsNothing(s, op.ev, op.fetched);
    SeenAfterCandidate(s, op.ev, op.fetched, p);
    var item := NewItem(s, op, p, SeenField);
    if item.Some? {
      assert item.value in accepted';
      assert forall t :: t in accepted' <==> t in accepted || t == item.value;
    }
  }

  lemma SeenAfterCandidate(s: State, ev: CandidateEvent, fetched: Option<u32>, p: ParaId)
    ensures p in ProcessCandidate(s, ev, fetched).seen <==>
            p in s.seen || (AcceptsCandidate(s, ev, fetched) && ev.parachainId == p)
  {
    if ev.eventType.Backed? {
      BackedEffect(s, ev, fetched);
    } else {
      OutcomeEffect(s, ev, fetched);
    }
  }

  lemma TracksPublish(s: State, cfg: Config, op: Op, accepted: seq<Tagged>, p: ParaId)
    requires Publishes(s, op) && cfg.broadcasting && Tracks(s, cfg.maxStall, accepted, p)
    ensures Tracks(Step(s, cfg, op), cfg.maxStall, accepted, p)
  {
    PublishRounds(s, cfg, op);
  }

  lemma TracksSame(s: State, s': State, maxStall: u32, accepted: seq<Tagged>, p: ParaId)
    requires Tracks(s, maxStall, accepted, p) && SameSends(s, s') && s'.seen == s.seen
    ensures Tracks(s', maxStall, accepted, p)
  {
  }

  lemma OthersSeeNothing(s: State, cfg: Config, op: Op)
    requires !op.Candidate? && !Publishes(s, op)
    ensures SameSends(s, Step(s, cfg, op)) && Step(s, cfg, op).seen == s.seen
    ensures forall p :: NewItem(s, op, p, SeenField) == None
  {
    match op
    case Initiated(d) => DisputesSendNothing(s, d, D.Valid);
    case Concludes(d, outcome) => DisputesSendNothing(s, d, outcome);
    case _ =>
  }

  lemma {:induction false} BroadcastTracks(cfg: Config, maxBlocks: nat, ops: seq<Op>, p: ParaId)
    requires cfg.broadcasting
    ensures Tracks(Run(cfg, maxBlocks, ops), cfg.maxStall, Accepted(cfg, maxBlocks, ops, p, SeenField), p)
  {
    if ops != [] {
      var s, op := Run(cfg, maxBlocks, Front(ops)), Last(ops);
      var accepted := Accepted(cfg, maxBlocks, Front(ops), p, SeenField);
      BroadcastTracks(cfg, maxBlocks, Front(ops), p);
      assert Publishes(s, op) ==> NewItem(s, op, p, SeenField) == None;
      hide Step, Tracks, NewItem;
      if op.Candidate? {
        TracksCandidate(s, cfg, op, accepted, Accepted(cfg, maxBlocks, ops, p, SeenField), p);
      } else if Publishes(s, op) {
        TracksPublish(s, cfg, op, accepted, p);
      } else {
        OthersSeeNothing(s, cfg, op);
        TracksSame(s, Step(s, cfg, op), cfg.maxStall, accepted, p);
      }
    } else {
      assert Tracks(Run(cfg, maxBlocks, ops), cfg.maxStall, [], p);
    }
  }

  /** A candidate event of the para was accepted at one of the last `maxStall + 1` heights. */
  ghost predicate RecentlySeen(accepted: seq<Tagged>, height: u32, maxStall: u32) {
    exists t :: t in accepted && t.height <= height <= t.height + maxStall
  }

  /**
   With a broadcast channel, the paras notified when height `h` is published are exactly those with a
   candidate event accepted at a height in [h - maxStall, h]; their events carry `h`.
   */
  lemma BroadcastSetExactly(cfg: Config, maxBlocks: nat, ops: seq<Op>, op: Op, p: ParaId)
    requires cfg.broadcasting && Publishes(Run(cfg, maxBlocks, ops), op)
    ensures var s, s' := Run(cfg, maxBlocks, ops), Run(cfg, maxBlocks, ops + [op]);
            && s'.broadcast != [] && Front(s'.broadcast) == s.broadcast
            && (p in Last(s'.broadcast) <==>
                RecentlySeen(Accepted(cfg, maxBlocks, ops, p, SeenField), s.number, cfg.maxStall))
            && (p in Last(s'.broadcast) ==> Last(s'.broadcast)[p] == EventFor(s, p, false))
  {
    assert Front(ops + [op]) == ops;
    var s := Run(cfg, maxBlocks, ops);
    PublishRounds(s, cfg, op);
    BroadcastTracks(cfg, maxBlocks, ops, p);
    ActiveExactly(s, cfg.maxStall, Accepted(cfg, maxBlocks, ops, p, SeenField), p);
  }

  lemma ActiveExactly(s: State, maxStall: u32, accepted: seq<Tagged>, p: ParaId)
    requires Tracks(s, maxStall, accepted, p)
    ensures p in ActiveParas(s, maxStall) <==> RecentlySeen(accepted, s.number, maxStall)
  {
  }

  /** The broadcast channel never loses a candidate of any para, although most paras join it late. */
  lemma {:induction false} BroadcastConservesSeen(cfg: Config, maxBlocks: nat, ops: seq<Op>, p: ParaId)
    requires cfg.broadcasting
    ensures var s := Run(cfg, maxBlocks, ops);
            Sent(s.broadcast, p, SeenField) + Unsent(s, p, SeenField) == Accepted(cfg, maxBlocks, ops, p, SeenField)
  {
    if ops != [] {
      var s, op := Run(cfg, maxBlocks, Front(ops)), Last(ops);
      var f := SeenField;
      BroadcastConservesSeen(cfg, maxBlocks, Front(ops), p);
      StepItems(s, cfg, op, p, f);
      if Publishes(s, op) {
        PublishRounds(s, cfg, op);
        SentSnoc(s.broadcast, s, ActiveParas(s, cfg.maxStall).Keys, false, p, f);
        if p !in ActiveParas(s, cfg.maxStall) {
          assert p !in s.seen && Unsent(s, p, f) == [];
        }
      } else {
        QuietStep(s, cfg, op);
      }
      ConservesStep(Sent(s.broadcast, p, f), Unsent(s, p, f), Sent(Step(s, cfg, op).broadcast, p, f),
                    Unsent(Step(s, cfg, op), p, f), Accepted(cfg, maxBlocks, Front(ops), p, f), NewItem(s, op, p, f),
                    Publishes(s, op));
    }
  }

  /*** Both kinds of channel carry the same heads ***/

  /** Round by round, what the broadcast sends about a para is what its subscribers get, without the missing authors. */
  ghost predicate SameHeads(subscribed: seq<Round>, broadcast: seq<Round>) {
    && |broadcast| == |subscribed|
    && forall i, p :: 0 <= i < |broadcast| && p in broadcast[i] && p in subscribed[i] ==>
         broadcast[i][p] == subscribed[i][p].(authorsMissing := [])
  }

  lemma {:induction false} ChannelsAgree(cfg: Config, maxBlocks: nat, ops: seq<Op>)
    ensures var s := Run(cfg, maxBlocks, ops);
            if cfg.broadcasting then SameHeads(s.subscribed, s.broadcast) else s.broadcast == []
  {
    if ops != [] {
      var s, op := Run(cfg, maxBlocks, Front(ops)), Last(ops);
      ChannelsAgree(cfg, maxBlocks, Front(ops));
      if Publishes(s, op) {
        PublishRounds(s, cfg, op);
        var whole, part := EventsFor(s, cfg.subscribers, true), EventsFor(s, ActiveParas(s, cfg.maxStall).Keys, false);
        assert forall p :: p in whole && p in part ==> part[p] == whole[p].(authorsMissing := []);
        hide EventsFor, ActiveParas, Step;
      } else {
        QuietStep(s, cfg, op);
      }
    }
  }
}

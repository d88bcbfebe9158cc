/** The bytes of the parachain inherent, written out, skipped parts included. */
module InherentLayout {
  import opened Prelude
  import opened Scale
  import opened Layouts
  import opened Inherent
  import D = Decoders

  /*** The parts that are skipped ***/

  datatype Commitments = Commitments(
    upward: seq<Bytes>, horizontal: seq<(u32, Bytes)>, code: Option<Bytes>, head: Bytes, processed: u32, watermark: u32)

  datatype Attestation = Implicit(signature: Signature) | ExplicitVote(signature: Signature)

  datatype BackedCandidate = BackedCandidate(
    descriptor: Bytes, commitments: Commitments, votes: seq<Attestation>, indices: seq<bool>)

  datatype DigestItem =
    | OtherItem(b: Bytes)
    | Consensus(engine: Bytes, b: Bytes)
    | Seal(engine: Bytes, b: Bytes)
    | PreRuntime(engine: Bytes, b: Bytes)
    | EnvironmentUpdated

  datatype Header = Header(parent: Hash32, number: u32, state: Hash32, extrinsics: Hash32, digest: seq<DigestItem>)

  predicate Short(b: Bytes) { |b| < TWO_32 }

  predicate ValidCommitments(c: Commitments) {
    && |c.upward| < TWO_32 && (forall i :: 0 <= i < |c.upward| ==> Short(c.upward[i]))
    && |c.horizontal| < TWO_32 && (forall i :: 0 <= i < |c.horizontal| ==> Short(c.horizontal[i].1))
    && (c.code.Some? ==> Short(c.code.value)) && Short(c.head)
  }

  predicate ValidCandidate(c: BackedCandidate) {
    |c.descriptor| == 292 && ValidCommitments(c.commitments) && |c.votes| < TWO_32 && |c.indices| <= MAX_BITS
  }

  predicate ValidItem(d: DigestItem) {
    match d
    case OtherItem(b) => Short(b)
    case Consensus(engine, b) => |engine| == 4 && Short(b)
    case Seal(engine, b) => |engine| == 4 && Short(b)
    case PreRuntime(engine, b) => |engine| == 4 && Short(b)
    case EnvironmentUpdated => true
  }

  predicate ValidHeader(h: Header) {
    |h.digest| < TWO_32 && forall i :: 0 <= i < |h.digest| ==> ValidItem(h.digest[i])
  }

  function BlobItems(bs: seq<Bytes>): (items: seq<Bytes>)
    requires forall i :: 0 <= i < |bs| ==> Short(bs[i])
    ensures |items| == |bs|
  {
    seq(|bs|, i requires 0 <= i < |bs| =>
      assert Short(bs[i]);
      Blob(bs[i]))
  }

  function MessageItems(ms: seq<(u32, Bytes)>): (items: seq<Bytes>)
    requires forall i :: 0 <= i < |ms| ==> Short(ms[i].1)
    ensures |items| == |ms|
  {
    seq(|ms|, i requires 0 <= i < |ms| =>
      assert Short(ms[i].1);
      LeBytes(ms[i].0, 4) + Blob(ms[i].1))
  }

  function CommitmentsBytes(c: Commitments): Bytes
    requires ValidCommitments(c)
  {
    Counted(BlobItems(c.upward)) + (Counted(MessageItems(c.horizontal)) +
      (Optional(if c.code.None? then None else Some(Blob(c.code.value))) + (Blob(c.head) +
        (LeBytes(c.processed, 4) + LeBytes(c.watermark, 4)))))
  }

  function AttestationBytes(a: Attestation): Bytes { [if a.Implicit? then 1 else 2] + a.signature }

  function CandidateBytes(c: BackedCandidate): Bytes
    requires ValidCandidate(c)
  {
    c.descriptor + (CommitmentsBytes(c.commitments) +
      (Counted(seq(|c.votes|, i requires 0 <= i < |c.votes| => AttestationBytes(c.votes[i]))) + BitBytes(c.indices)))
  }

  function DigestBytes(d: DigestItem): Bytes
    requires ValidItem(d)
  {
    match d
    case OtherItem(b) => [0] + Blob(b)
    case Consensus(engine, b) => [4] + (engine + Blob(b))
    case Seal(engine, b) => [5] + (engine + Blob(b))
    case PreRuntime(engine, b) => [6] + (engine + Blob(b))
    case EnvironmentUpdated => [8]
  }

  function HeaderBytes(h: Header): Bytes
    requires ValidHeader(h)
  {
    h.parent + (CompactBytes(h.number) + (h.state + (h.extrinsics +
      Counted(seq(|h.digest|, i requires 0 <= i < |h.digest| => DigestBytes(h.digest[i]))))))
  }

  /*** The parts that are read ***/

  function BitfieldBytes(b: SignedBitfield): Bytes
    requires |b.payload| <= MAX_BITS
  {
    BitBytes(b.payload) + (LeBytes(b.validatorIndex, 4) + b.signature)
  }

  function KindBytes(k: ValidKind): Bytes
    requires k.ApprovalCheckingMultipleCandidates? ==> |k.hs| < TWO_32
  {
    match k
    case Explicit => [0]
    case BackingSeconded(h) => [1] + h
    case BackingValid(h) => [2] + h
    case ApprovalChecking => [3]
    case ApprovalCheckingMultipleCandidates(hs) => [4] + Counted(seq(|hs|, i requires 0 <= i < |hs| => hs[i]))
  }

  function StatementBytes(s: DisputeStatement): Bytes
    requires StatementLimits(s)
  {
    match s
    case Valid(k) => [0] + KindBytes(k)
    case Invalid => [1, 0]
  }

  function SignedStatementBytes(s: SignedStatement): Bytes
    requires StatementLimits(s.statement)
  {
    StatementBytes(s.statement) + (LeBytes(s.validatorIndex, 4) + s.signature)
  }

  function StatementItems(ss: seq<SignedStatement>): (items: seq<Bytes>)
    requires forall st :: st in ss ==> StatementLimits(st.statement)
    ensures |items| == |ss|
  {
    seq(|ss|, i requires 0 <= i < |ss| => SignedStatementBytes(ss[i]))
  }

  function SetBytes(s: SignedSet): Bytes
    requires SetLimits(s)
  {
    s.candidateHash + (LeBytes(s.session, 4) + Counted(StatementItems(s.statements)))
  }

  /*** The whole ***/

  datatype WireInherent = WireInherent(
    bitfields: seq<SignedBitfield>, backed: seq<BackedCandidate>, disputes: seq<SignedSet>, header: Header)

  predicate ValidInherent(p: WireInherent) {
    && |p.bitfields| < TWO_32 && (forall i :: 0 <= i < |p.bitfields| ==> |p.bitfields[i].payload| <= MAX_BITS)
    && |p.backed| < TWO_32 && (forall i :: 0 <= i < |p.backed| ==> ValidCandidate(p.backed[i]))
    && |p.disputes| < TWO_32 && (forall i :: 0 <= i < |p.disputes| ==> SetLimits(p.disputes[i]))
    && ValidHeader(p.header)
  }

  function BodyBytes(p: WireInherent): Bytes
    requires ValidInherent(p)
  {
    Counted(seq(|p.bitfields|, i requires 0 <= i < |p.bitfields| => BitfieldBytes(p.bitfields[i]))) +
      (Counted(seq(|p.backed|, i requires 0 <= i < |p.backed| => CandidateBytes(p.backed[i]))) +
        (Counted(seq(|p.disputes|, i requires 0 <= i < |p.disputes| => SetBytes(p.disputes[i]))) +
          HeaderBytes(p.header)))
  }

  /*** Encoding, part by part ***/

  lemma VecEncodes(elem: Shape, vs: seq<Val>, items: seq<Bytes>)
    requires |vs| == |items| < TWO_32
    requires forall i :: 0 <= i < |vs| ==> Fits(elem, vs[i]) && Encode(elem, vs[i]) == items[i]
    ensures Fits(VecOf(elem), List(vs)) && Encode(VecOf(elem), List(vs)) == Counted(items)
  {
    hide Encode, Fits;
    ManyJoined(elem, vs, items);
    VecUnfolds(elem, vs);
  }

  lemma VecUnfolds(elem: Shape, vs: seq<Val>)
    requires |vs| < TWO_32 && forall i :: 0 <= i < |vs| ==> Fits(elem, vs[i])
    ensures Fits(VecOf(elem), List(vs))
    ensures Encode(VecOf(elem), List(vs)) == CompactBytes(|vs|) + EncodeMany(elem, vs)
  {
  }

  lemma CaseEncodes(tag: u8, payload: Shape, others: Shape, v: Val)
    requires v.Tagged? && if v.t == tag then Fits(payload, v.v) else Fits(others, v)
    ensures Fits(Case(tag, payload, others), v)
    ensures Encode(Case(tag, payload, others), v) ==
            if v.t == tag then [tag] + Encode(payload, v.v) else Encode(others, v)
  {
  }

  function BlobVals(bs: seq<Bytes>): seq<Val> { seq(|bs|, i requires 0 <= i < |bs| => BlobVal(bs[i])) }

  function MessageVal(m: (u32, Bytes)): Val { Both(Num(m.0), BlobVal(m.1)) }

  function CodeVal(o: Option<Bytes>): Val { if o.None? then Tagged(0, Nothing) else Tagged(1, BlobVal(o.value)) }

  function CommitmentsVal(c: Commitments): Val {
    Both(List(BlobVals(c.upward)),
      Both(List(seq(|c.horizontal|, i requires 0 <= i < |c.horizontal| => MessageVal(c.horizontal[i]))),
        Both(CodeVal(c.code), Both(BlobVal(c.head), Both(Num(c.processed), Num(c.watermark))))))
  }

  const COMMITMENTS_TAIL: Shape := Pair(D.BLOB, Pair(D.U32, D.U32))

  lemma CommitmentsEncode(c: Commitments)
    requires ValidCommitments(c)
    ensures Fits(COMMITMENTS, CommitmentsVal(c)) && Encode(COMMITMENTS, CommitmentsVal(c)) == CommitmentsBytes(c)
  {
    var v := CommitmentsVal(c);
    MessagesEncode(c);
    CodeEncodes(c.code);
    UpwardEncode(c);
    BlobFits(c.head);
    Pow256Values();
    hide BlobVal, BlobVals, MessageVal, CodeVal, Counted, Blob, Optional, LeBytes, OptionOf;
    PairEncodes(D.U32, D.U32, v.b2.b2.b2.b2);
    PairEncodes(D.BLOB, Pair(D.U32, D.U32), v.b2.b2.b2);
    PairEncodes(OptionOf(D.BLOB), COMMITMENTS_TAIL, v.b2.b2);
    PairEncodes(VecOf(Pair(D.U32, D.BLOB)), Pair(OptionOf(D.BLOB), COMMITMENTS_TAIL), v.b2);
    PairEncodes(VecOf(D.BLOB), COMMITMENTS.snd, v);
  }

  lemma UpwardEncode(c: Commitments)
    requires ValidCommitments(c)
    ensures Fits(VecOf(D.BLOB), List(BlobVals(c.upward)))
    ensures Encode(VecOf(D.BLOB), List(BlobVals(c.upward))) == Counted(BlobItems(c.upward))
  {
    forall i | 0 <= i < |c.upward|
      ensures Fits(D.BLOB, BlobVals(c.upward)[i]) && Encode(D.BLOB, BlobVals(c.upward)[i]) == BlobItems(c.upward)[i]
    {
      BlobFits(c.upward[i]);
    }
    hide BlobVal, Blob;
    VecEncodes(D.BLOB, BlobVals(c.upward), BlobItems(c.upward));
  }

  lemma MessagesEncode(c: Commitments)
    requires ValidCommitments(c)
    ensures Fits(VecOf(Pair(D.U32, D.BLOB)), CommitmentsVal(c).b2.a)
    ensures Encode(VecOf(Pair(D.U32, D.BLOB)), CommitmentsVal(c).b2.a) == Counted(MessageItems(c.horizontal))
  {
    var vs := CommitmentsVal(c).b2.a.vs;
    Pow256Values();
    forall i | 0 <= i < |vs|
      ensures Fits(Pair(D.U32, D.BLOB), vs[i]) && Encode(Pair(D.U32, D.BLOB), vs[i]) == MessageItems(c.horizontal)[i]
    {
      BlobFits(c.horizontal[i].1);
      PairEncodes(D.U32, D.BLOB, vs[i]);
    }
    hide MessageVal, MessageItems;
    VecEncodes(Pair(D.U32, D.BLOB), vs, MessageItems(c.horizontal));
  }

  lemma CodeEncodes(o: Option<Bytes>)
    requires o.Some? ==> Short(o.value)
    ensures Fits(OptionOf(D.BLOB), CodeVal(o))
    ensures Encode(OptionOf(D.BLOB), CodeVal(o)) == Optional(if o.None? then None else Some(Blob(o.value)))
  {
    if o.Some? {
      BlobFits(o.value);
    }
    hide BlobVal, Blob, D.BLOB;
    OptionEncodes(D.BLOB, CodeVal(o));
  }

  function AttestationVal(a: Attestation): Val { Tagged(if a.Implicit? then 1 else 2, Raw(a.signature)) }

  lemma AttestationEncodes(a: Attestation)
    ensures Fits(ATTESTATION, AttestationVal(a)) && Encode(ATTESTATION, AttestationVal(a)) == AttestationBytes(a)
  {
    if !a.Implicit? {
      CaseEncodes(2, SIGNATURE, NoCase, AttestationVal(a));
    }
    CaseEncodes(1, SIGNATURE, Case(2, SIGNATURE, NoCase), AttestationVal(a));
  }

  function CandidateVal(c: BackedCandidate): Val {
    Both(Raw(c.descriptor), Both(CommitmentsVal(c.commitments),
      Both(List(seq(|c.votes|, i requires 0 <= i < |c.votes| => AttestationVal(c.votes[i]))), BitList(c.indices))))
  }

  lemma CandidateEncodes(c: BackedCandidate)
    requires ValidCandidate(c)
    ensures Fits(BACKED_CANDIDATE, CandidateVal(c)) && Encode(BACKED_CANDIDATE, CandidateVal(c)) == CandidateBytes(c)
  {
    var v := CandidateVal(c);
    CommitmentsEncode(c.commitments);
    VotesEncode(c);
    hide CommitmentsVal, CommitmentsBytes, AttestationVal, AttestationBytes, Counted, COMMITMENTS, ATTESTATION;
    PairEncodes(VecOf(ATTESTATION), Bits, v.b2.b2);
    PairEncodes(COMMITMENTS, Pair(VecOf(ATTESTATION), Bits), v.b2);
    PairEncodes(Fixed(D.DESCRIPTOR_SIZE), BACKED_CANDIDATE.snd, v);
  }

  lemma VotesEncode(c: BackedCandidate)
    requires ValidCandidate(c)
    ensures Fits(VecOf(ATTESTATION), CandidateVal(c).b2.b2.a)
    ensures Encode(VecOf(ATTESTATION), CandidateVal(c).b2.b2.a) ==
            Counted(seq(|c.votes|, i requires 0 <= i < |c.votes| => AttestationBytes(c.votes[i])))
  {
    var vs := CandidateVal(c).b2.b2.a.vs;
    forall i | 0 <= i < |vs|
      ensures Fits(ATTESTATION, vs[i]) && Encode(ATTESTATION, vs[i]) == AttestationBytes(c.votes[i])
    {
      AttestationEncodes(c.votes[i]);
    }
    hide AttestationVal, AttestationBytes, ATTESTATION;
    VecEncodes(ATTESTATION, vs, seq(|c.votes|, i requires 0 <= i < |c.votes| => AttestationBytes(c.votes[i])));
  }

  function DigestVal(d: DigestItem): Val {
    match d
    case OtherItem(b) => Tagged(0, BlobVal(b))
    case Consensus(engine, b) => Tagged(4, Both(Raw(engine), BlobVal(b)))
    case Seal(engine, b) => Tagged(5, Both(Raw(engine), BlobVal(b)))
    case PreRuntime(engine, b) => Tagged(6, Both(Raw(engine), BlobVal(b)))
    case EnvironmentUpdated => Tagged(8, Nothing)
  }

  const ITEM8: Shape := Case(8, Unit, NoCase)
  const ITEM6: Shape := Case(6, ENGINE_DATA, ITEM8)
  const ITEM5: Shape := Case(5, ENGINE_DATA, ITEM6)
  const ITEM4: Shape := Case(4, ENGINE_DATA, ITEM5)

  lemma DigestEncodes(d: DigestItem)
    requires ValidItem(d)
    ensures Fits(DIGEST_ITEM, DigestVal(d)) && Encode(DIGEST_ITEM, DigestVal(d)) == DigestBytes(d)
  {
    var v := DigestVal(d);
    if !d.EnvironmentUpdated? {
      BlobFits(d.b);
    }
    hide BlobVal, Blob, D.BLOB;
    if d.EnvironmentUpdated? {
      CaseEncodes(8, Unit, NoCase, v);
      assert [8] + [] == [8];
      CaseEncodes(6, ENGINE_DATA, ITEM8, v);
      CaseEncodes(5, ENGINE_DATA, ITEM6, v);
      CaseEncodes(4, ENGINE_DATA, ITEM5, v);
    } else if !d.OtherItem? {
      PairEncodes(Fixed(4), D.BLOB, v.v);
      hide ENGINE_DATA;
      if d.PreRuntime? {
        CaseEncodes(6, ENGINE_DATA, ITEM8, v);
      }
      if !d.Consensus? {
        CaseEncodes(5, ENGINE_DATA, ITEM6, v);
      }
      CaseEncodes(4, ENGINE_DATA, ITEM5, v);
    }
    CaseEncodes(0, D.BLOB, ITEM4, v);
  }

  function HeaderVal(h: Header): Val {
    Both(Raw(h.parent), Both(Num(h.number), Both(Raw(h.state), Both(Raw(h.extrinsics),
      List(seq(|h.digest|, i requires 0 <= i < |h.digest| => DigestVal(h.digest[i])))))))
  }

  lemma HeaderEncodes(h: Header)
    requires ValidHeader(h)
    ensures Fits(HEADER, HeaderVal(h)) && Encode(HEADER, HeaderVal(h)) == HeaderBytes(h)
  {
    var v := HeaderVal(h);
    var vs, items := v.b2.b2.b2.b2.vs, seq(|h.digest|, i requires 0 <= i < |h.digest| => DigestBytes(h.digest[i]));
    forall i | 0 <= i < |vs|
      ensures Fits(DIGEST_ITEM, vs[i]) && Encode(DIGEST_ITEM, vs[i]) == items[i]
    {
      DigestEncodes(h.digest[i]);
    }
    hide DigestVal, DigestBytes, DIGEST_ITEM, Counted;
    VecEncodes(DIGEST_ITEM, vs, items);
    PairEncodes(D.H256, VecOf(DIGEST_ITEM), v.b2.b2.b2);
    PairEncodes(D.H256, Pair(D.H256, VecOf(DIGEST_ITEM)), v.b2.b2);
    PairEncodes(CompactU32, Pair(D.H256, Pair(D.H256, VecOf(DIGEST_ITEM))), v.b2);
    PairEncodes(D.H256, HEADER.snd, v);
  }

  lemma SignedTailEncodes(index: u32, signature: Signature)
    ensures Fits(SIGNED_TAIL, Both(Num(index), Raw(signature)))
    ensures Encode(SIGNED_TAIL, Both(Num(index), Raw(signature))) == LeBytes(index, 4) + signature
  {
    Pow256Values();
  }

  lemma BitfieldEncodes(b: SignedBitfield)
    requires |b.payload| <= MAX_BITS
    ensures Fits(SIGNED_BITFIELD, BitfieldVal(b)) && Encode(SIGNED_BITFIELD, BitfieldVal(b)) == BitfieldBytes(b)
  {
    SignedTailEncodes(b.validatorIndex, b.signature);
    hide SIGNED_TAIL;
    PairEncodes(Bits, SIGNED_TAIL, BitfieldVal(b));
  }

  lemma {:induction false} RawListAt(hs: seq<Hash32>)
    ensures |RawList(hs)| == |hs| && forall i :: 0 <= i < |hs| ==> RawList(hs)[i] == Raw(hs[i])
  {
    if hs != [] {
      RawListAt(hs[1..]);
    }
  }

  lemma KindEncodes(k: ValidKind)
    requires k.ApprovalCheckingMultipleCandidates? ==> |k.hs| < TWO_32
    ensures Fits(VALID_KIND, KindVal(k)) && Encode(VALID_KIND, KindVal(k)) == KindBytes(k)
  {
    var v := KindVal(k);
    if k.ApprovalCheckingMultipleCandidates? {
      RawListAt(k.hs);
      VecEncodes(D.H256, RawList(k.hs), seq(|k.hs|, i requires 0 <= i < |k.hs| => k.hs[i]));
      hide RawList, Counted;
      CaseEncodes(4, VecOf(D.H256), NoCase, v);
    }
    assert [0] + [] == [0] && [3] + [] == [3];
    if v.t >= 3 {
      CaseEncodes(3, Unit, KIND4, v);
    }
    if v.t >= 2 {
      CaseEncodes(2, D.H256, KIND3, v);
    }
    if v.t >= 1 {
      CaseEncodes(1, D.H256, KIND2, v);
    }
    CaseEncodes(0, Unit, KIND1, v);
  }

  lemma StatementEncodes(s: DisputeStatement)
    requires StatementLimits(s)
    ensures Fits(STATEMENT, StatementVal(s)) && Encode(STATEMENT, StatementVal(s)) == StatementBytes(s)
  {
    if s.Valid? {
      KindEncodes(s.kind);
    } else {
      var v := StatementVal(s);
      CaseEncodes(0, Unit, NoCase, v.v);
      CaseEncodes(1, INVALID_KIND, NoCase, v);
      assert [1] + ([0] + []) == [1, 0];
    }
    hide VALID_KIND, KindVal, KindBytes, INVALID_CASE;
    CaseEncodes(0, VALID_KIND, INVALID_CASE, StatementVal(s));
  }

  lemma SignedStatementEncodes(s: SignedStatement)
    requires StatementLimits(s.statement)
    ensures Fits(SIGNED_STATEMENT, SignedStatementVal(s))
    ensures Encode(SIGNED_STATEMENT, SignedStatementVal(s)) == SignedStatementBytes(s)
  {
    StatementEncodes(s.statement);
    SignedTailEncodes(s.validatorIndex, s.signature);
    hide STATEMENT, SIGNED_TAIL, StatementVal, StatementBytes;
    PairEncodes(STATEMENT, SIGNED_TAIL, SignedStatementVal(s));
  }

  lemma {:induction false} StatementValsAt(ss: seq<SignedStatement>)
    ensures |StatementVals(ss)| == |ss|
    ensures forall i :: 0 <= i < |ss| ==> StatementVals(ss)[i] == SignedStatementVal(ss[i])
  {
    hide SignedStatementVal;
    if ss != [] {
      StatementValsAt(ss[1..]);
    }
  }

  lemma StatementsEncode(ss: seq<SignedStatement>)
    requires |ss| < TWO_32 && forall st :: st in ss ==> StatementLimits(st.statement)
    ensures Fits(VecOf(SIGNED_STATEMENT), List(StatementVals(ss)))
    ensures Encode(VecOf(SIGNED_STATEMENT), List(StatementVals(ss))) == Counted(StatementItems(ss))
  {
    var vs, items := StatementVals(ss), StatementItems(ss);
    StatementValsAt(ss);
    hide StatementVals, SignedStatementBytes, SignedStatementVal, SIGNED_STATEMENT, Counted, StatementLimits;
    forall i | 0 <= i < |vs|
      ensures Fits(SIGNED_STATEMENT, vs[i]) && Encode(SIGNED_STATEMENT, vs[i]) == items[i]
    {
      SignedStatementEncodes(ss[i]);
    }
    VecEncodes(SIGNED_STATEMENT, vs, items);
  }

  lemma SetEncodes(s: SignedSet)
    requires SetLimits(s)
    ensures Fits(STATEMENT_SET, SetVal(s)) && Encode(STATEMENT_SET, SetVal(s)) == SetBytes(s)
  {
    StatementsEncode(s.statements);
    Pow256Values();
    hide SIGNED_STATEMENT, StatementVals, StatementItems, Counted;
    PairEncodes(D.U32, VecOf(SIGNED_STATEMENT), SetVal(s).b2);
    PairEncodes(D.H256, SET_TAIL, SetVal(s));
  }

  lemma {:induction false} SetValsAt(ss: seq<SignedSet>)
    ensures |SetVals(ss)| == |ss| && forall i :: 0 <= i < |ss| ==> SetVals(ss)[i] == SetVal(ss[i])
  {
    hide SetVal;
    if ss != [] {
      SetValsAt(ss[1..]);
    }
  }

  lemma {:induction false} BitfieldValsAt(bs: seq<SignedBitfield>)
    ensures |BitfieldVals(bs)| == |bs| && forall i :: 0 <= i < |bs| ==> BitfieldVals(bs)[i] == BitfieldVal(bs[i])
  {
    hide BitfieldVal;
    if bs != [] {
      BitfieldValsAt(bs[1..]);
    }
  }

  /** The abstract inherent that these bytes stand for. */
  function ToInherent(p: WireInherent): ParaInherent {
    ParaInherent(p.bitfields, seq(|p.backed|, i requires 0 <= i < |p.backed| => CandidateVal(p.backed[i])), p.disputes,
                 HeaderVal(p.header))
  }

  lemma BitfieldsEncode(p: WireInherent)
    requires ValidInherent(p)
    ensures Fits(VecOf(SIGNED_BITFIELD), List(BitfieldVals(p.bitfields)))
    ensures Encode(VecOf(SIGNED_BITFIELD), List(BitfieldVals(p.bitfields))) ==
            Counted(seq(|p.bitfields|, i requires 0 <= i < |p.bitfields| => BitfieldBytes(p.bitfields[i])))
  {
    var vs := BitfieldVals(p.bitfields);
    BitfieldValsAt(p.bitfields);
    hide BitfieldVals;
    forall i | 0 <= i < |vs|
      ensures Fits(SIGNED_BITFIELD, vs[i]) && Encode(SIGNED_BITFIELD, vs[i]) == BitfieldBytes(p.bitfields[i])
    {
      BitfieldEncodes(p.bitfields[i]);
    }
    hide BitfieldVal, BitfieldBytes, SIGNED_BITFIELD, Counted;
    VecEncodes(SIGNED_BITFIELD, vs,
               seq(|p.bitfields|, i requires 0 <= i < |p.bitfields| => BitfieldBytes(p.bitfields[i])));
  }

  lemma BackedEncode(p: WireInherent)
    requires ValidInherent(p)
    ensures Fits(VecOf(BACKED_CANDIDATE), List(ToInherent(p).backed))
    ensures Encode(VecOf(BACKED_CANDIDATE), List(ToInherent(p).backed)) ==
            Counted(seq(|p.backed|, i requires 0 <= i < |p.backed| => CandidateBytes(p.backed[i])))
  {
    var vs := ToInherent(p).backed;
    forall i | 0 <= i < |vs|
      ensures Fits(BACKED_CANDIDATE, vs[i]) && Encode(BACKED_CANDIDATE, vs[i]) == CandidateBytes(p.backed[i])
    {
      CandidateEncodes(p.backed[i]);
    }
    hide CandidateVal, CandidateBytes, BACKED_CANDIDATE, Counted;
    VecEncodes(BACKED_CANDIDATE, vs, seq(|p.backed|, i requires 0 <= i < |p.backed| => CandidateBytes(p.backed[i])));
  }

  lemma DisputesEncode(p: WireInherent)
    requires ValidInherent(p)
    ensures Fits(VecOf(STATEMENT_SET), List(SetVals(p.disputes)))
    ensures Encode(VecOf(STATEMENT_SET), List(SetVals(p.disputes))) ==
            Counted(seq(|p.disputes|, i requires 0 <= i < |p.disputes| => SetBytes(p.disputes[i])))
  {
    var vs := SetVals(p.disputes);
    SetValsAt(p.disputes);
    hide SetVals;
    forall i | 0 <= i < |vs|
      ensures Fits(STATEMENT_SET, vs[i]) && Encode(STATEMENT_SET, vs[i]) == SetBytes(p.disputes[i])
    {
      SetEncodes(p.disputes[i]);
    }
    hide SetVal, SetBytes, STATEMENT_SET, Counted;
    VecEncodes(STATEMENT_SET, vs, seq(|p.disputes|, i requires 0 <= i < |p.disputes| => SetBytes(p.disputes[i])));
  }

  lemma BodyEncodes(p: WireInherent)
    requires ValidInherent(p)
    ensures Fits(BODY, BodyVal(ToInherent(p))) && Encode(BODY, BodyVal(ToInherent(p))) == BodyBytes(p)
  {
    var v := BodyVal(ToInherent(p));
    BitfieldsEncode(p);
    BackedEncode(p);
    DisputesEncode(p);
    HeaderEncodes(p.header);
    hide BitfieldVals, SetVals, HeaderVal, HeaderBytes, CandidateVal, Counted, CandidateBytes, SetBytes, BitfieldBytes,
         SIGNED_BITFIELD, BACKED_CANDIDATE, STATEMENT_SET, HEADER;
    PairEncodes(VecOf(STATEMENT_SET), HEADER, v.b2.b2);
    PairEncodes(VecOf(BACKED_CANDIDATE), DISPUTES_AND_HEADER, v.b2);
    PairEncodes(VecOf(SIGNED_BITFIELD), AFTER_BITFIELDS, v);
  }

  /*** What the decoder keeps ***/

  function StatementsKept(ss: seq<SignedStatement>): seq<(DisputeStatement, u32)> {
    seq(|ss|, i requires 0 <= i < |ss| => (ss[i].statement, ss[i].validatorIndex))
  }

  function SetKept(s: SignedSet): DisputeStatementSet {
    DisputeStatementSet(s.candidateHash, s.session, StatementsKept(s.statements))
  }

  /** The bitfields without validator and signature, and the dispute statements without signatures. */
  function Kept(p: WireInherent): InherentData {
    InherentData(PayloadsKept(p.bitfields), SetsKept(p.disputes))
  }

  function PayloadsKept(bs: seq<SignedBitfield>): seq<seq<bool>> {
    seq(|bs|, i requires 0 <= i < |bs| => bs[i].payload)
  }

  function SetsKept(ss: seq<SignedSet>): seq<DisputeStatementSet> {
    seq(|ss|, i requires 0 <= i < |ss| => SetKept(ss[i]))
  }

  lemma {:induction false} UnsignedKept(ss: seq<SignedStatement>)
    ensures Unsigned(ss) == StatementsKept(ss)
  {
    if ss != [] {
      UnsignedKept(ss[1..]);
    }
  }

  lemma {:induction false} UnsignedSetsKept(ss: seq<SignedSet>)
    ensures UnsignedSets(ss) == SetsKept(ss)
  {
    if ss != [] {
      UnsignedKept(ss[0].statements);
      UnsignedSetsKept(ss[1..]);
    }
  }

  lemma {:induction false} AllPayloadsKept(bs: seq<SignedBitfield>)
    ensures Payloads(bs) == PayloadsKept(bs)
  {
    if bs != [] {
      AllPayloadsKept(bs[1..]);
    }
  }

  /** The decoder on the bytes themselves: a bare extrinsic reads back as what it keeps, any other is refused. */
  lemma ParainherentReads(p: WireInherent, version: u8, pallet: u8, call: u8)
    requires ValidInherent(p) && 3 + |BodyBytes(p)| < TWO_32
    ensures var inner := [version, pallet, call] + BodyBytes(p);
            Parainherent(CompactBytes(|inner|) + inner) == if version < 64 then Some(Kept(p)) else None
  {
    var body := BodyBytes(p);
    BodyEncodes(p);
    BodyReads(p);
    hide BodyBytes, BodyVal, BodyBack, Kept;
    RoundTrip(BODY, BodyVal(ToInherent(p)), []);
    assert body + [] == body;
    EnvelopeOpens(version, pallet, call, body);
  }

  lemma BodyReads(p: WireInherent)
    requires (forall b :: b in p.bitfields ==> |b.payload| <= MAX_BITS) && forall s :: s in p.disputes ==> SetLimits(s)
    ensures BodyBack(BodyVal(ToInherent(p))) == Kept(p)
  {
    BitfieldValsBack(p.bitfields);
    SetValsBack(p.disputes);
    AllPayloadsKept(p.bitfields);
    UnsignedSetsKept(p.disputes);
    hide BitfieldVals, SetVals, PayloadsBack, SetsBack, SetsKept, PayloadsKept, Payloads, UnsignedSets, HeaderVal,
         CandidateVal, ValidInherent;
  }
}

/** The parachain inherent: what the tools keep of it and its two wire forms. */
module Inherent {
  import opened Prelude
  import opened Scale
  import opened Decoders

  type Hash32 = b: Bytes | |b| == 32 witness Zeros(32)
  type Signature = b: Bytes | |b| == 64 witness Zeros(64)

  function Zeros(n: nat): (b: Bytes)
    ensures |b| == n
  {
    if n == 0 then [] else [0] + Zeros(n - 1)
  }

  datatype ValidKind =
    | Explicit
    | BackingSeconded(h: Hash32)
    | BackingValid(h: Hash32)
    | ApprovalChecking
    | ApprovalCheckingMultipleCandidates(hs: seq<Hash32>)

  /** An invalid statement has one kind only, the explicit one. */
  datatype DisputeStatement = Valid(kind: ValidKind) | Invalid

  datatype DisputeStatementSet = DisputeStatementSet(
    candidateHash: Hash32, session: u32, statements: seq<(DisputeStatement, u32)>)

  /** The parts of the inherent that are read. */
  datatype InherentData = InherentData(bitfields: seq<seq<bool>>, disputes: seq<DisputeStatementSet>)

  /*** The full inherent, with the parts that are skipped ***/

  datatype SignedBitfield = SignedBitfield(payload: seq<bool>, validatorIndex: u32, signature: Signature)
  datatype SignedStatement = SignedStatement(statement: DisputeStatement, validatorIndex: u32, signature: Signature)
  datatype SignedSet = SignedSet(candidateHash: Hash32, session: u32, statements: seq<SignedStatement>)
  datatype ParaInherent = ParaInherent(
    bitfields: seq<SignedBitfield>, backed: seq<Val>, disputes: seq<SignedSet>, header: Val)

  function Payloads(bs: seq<SignedBitfield>): seq<seq<bool>> {
    if bs == [] then [] else [bs[0].payload] + Payloads(bs[1..])
  }

  function Unsigned(ss: seq<SignedStatement>): seq<(DisputeStatement, u32)> {
    if ss == [] then [] else [(ss[0].statement, ss[0].validatorIndex)] + Unsigned(ss[1..])
  }

  function UnsignedSet(s: SignedSet): DisputeStatementSet {
    DisputeStatementSet(s.candidateHash, s.session, Unsigned(s.statements))
  }

  function UnsignedSets(ss: seq<SignedSet>): seq<DisputeStatementSet> {
    if ss == [] then [] else [UnsignedSet(ss[0])] + UnsignedSets(ss[1..])
  }

  function Content(p: ParaInherent): InherentData { InherentData(Payloads(p.bitfields), UnsignedSets(p.disputes)) }

  /*** SCALE shapes ***/

  const SIGNATURE: Shape := Fixed(64)
  const SIGNED_TAIL: Shape := Pair(U32, SIGNATURE)
  const SIGNED_BITFIELD: Shape := Pair(Bits, SIGNED_TAIL)

  const KIND4: Shape := Case(4, VecOf(H256), NoCase)
  const KIND3: Shape := Case(3, Unit, KIND4)
  const KIND2: Shape := Case(2, H256, KIND3)
  const KIND1: Shape := Case(1, H256, KIND2)
  const VALID_KIND: Shape := Case(0, Unit, KIND1)
  const INVALID_KIND: Shape := Case(0, Unit, NoCase)
  const INVALID_CASE: Shape := Case(1, INVALID_KIND, NoCase)
  const STATEMENT: Shape := Case(0, VALID_KIND, INVALID_CASE)
  const SIGNED_STATEMENT: Shape := Pair(STATEMENT, SIGNED_TAIL)
  const SET_TAIL: Shape := Pair(U32, VecOf(SIGNED_STATEMENT))
  const STATEMENT_SET: Shape := Pair(H256, SET_TAIL)

  const COMMITMENTS: Shape :=
    Pair(VecOf(BLOB), Pair(VecOf(Pair(U32, BLOB)), Pair(OptionOf(BLOB), Pair(BLOB, Pair(U32, U32)))))
  const ATTESTATION: Shape := Case(1, SIGNATURE, Case(2, SIGNATURE, NoCase))
  const BACKED_CANDIDATE: Shape := Pair(Fixed(DESCRIPTOR_SIZE), Pair(COMMITMENTS, Pair(VecOf(ATTESTATION), Bits)))

  const ENGINE_DATA: Shape := Pair(Fixed(4), BLOB)
  const DIGEST_ITEM: Shape :=
    Case(0, BLOB, Case(4, ENGINE_DATA, Case(5, ENGINE_DATA, Case(6, ENGINE_DATA, Case(8, Unit, NoCase)))))
  const HEADER: Shape := Pair(H256, Pair(CompactU32, Pair(H256, Pair(H256, VecOf(DIGEST_ITEM)))))

  const DISPUTES_AND_HEADER: Shape := Pair(VecOf(STATEMENT_SET), HEADER)
  const AFTER_BITFIELDS: Shape := Pair(VecOf(BACKED_CANDIDATE), DISPUTES_AND_HEADER)
  const BODY: Shape := Pair(VecOf(SIGNED_BITFIELD), AFTER_BITFIELDS)

  /*** From abstract values to SCALE values and back ***/

  function RawList(hs: seq<Hash32>): seq<Val> { if hs == [] then [] else [Raw(hs[0])] + RawList(hs[1..]) }

  function KindVal(k: ValidKind): Val {
    match k
    case Explicit => Tagged(0, Nothing)
    case BackingSeconded(h) => Tagged(1, Raw(h))
    case BackingValid(h) => Tagged(2, Raw(h))
    case ApprovalChecking => Tagged(3, Nothing)
    case ApprovalCheckingMultipleCandidates(hs) => Tagged(4, List(RawList(hs)))
  }

  function StatementVal(s: DisputeStatement): Val {
    match s
    case Valid(k) => Tagged(0, KindVal(k))
    case Invalid => Tagged(1, Tagged(0, Nothing))
  }

  function SignedStatementVal(s: SignedStatement): Val {
    Both(StatementVal(s.statement), Both(Num(s.validatorIndex), Raw(s.signature)))
  }

  function StatementVals(ss: seq<SignedStatement>): seq<Val> {
    if ss == [] then [] else [SignedStatementVal(ss[0])] + StatementVals(ss[1..])
  }

  function SetVal(s: SignedSet): Val {
    Both(Raw(s.candidateHash), Both(Num(s.session), List(StatementVals(s.statements))))
  }

  function SetVals(ss: seq<SignedSet>): seq<Val> { if ss == [] then [] else [SetVal(ss[0])] + SetVals(ss[1..]) }

  function BitfieldVal(b: SignedBitfield): Val {
    Both(BitList(b.payload), Both(Num(b.validatorIndex), Raw(b.signature)))
  }

  function BitfieldVals(bs: seq<SignedBitfield>): seq<Val> {
    if bs == [] then [] else [BitfieldVal(bs[0])] + BitfieldVals(bs[1..])
  }

  function BodyVal(p: ParaInherent): Val {
    Both(List(BitfieldVals(p.bitfields)), Both(List(p.backed), Both(List(SetVals(p.disputes)), p.header)))
  }

  /** Within the codec's length limits, and with well-formed skipped parts. */
  predicate Encodable(p: ParaInherent) {
    && |p.bitfields| < TWO_32 && (forall b :: b in p.bitfields ==> |b.payload| <= MAX_BITS)
    && Fits(VecOf(BACKED_CANDIDATE), List(p.backed))
    && |p.disputes| < TWO_32 && (forall s :: s in p.disputes ==> SetLimits(s))
    && Fits(HEADER, p.header)
  }

  predicate SetLimits(s: SignedSet) {
    |s.statements| < TWO_32 && forall st :: st in s.statements ==> StatementLimits(st.statement)
  }

  predicate StatementLimits(s: DisputeStatement) {
    s.Valid? && s.kind.ApprovalCheckingMultipleCandidates? ==> |s.kind.hs| < TWO_32
  }

  function RawOf(v: Val): Hash32 { if v.Raw? && |v.b| == 32 then v.b else Zeros(32) }
  function NumOf(v: Val): u32 { if v.Num? && v.n < TWO_32 then v.n else 0 }
  function ItemsOf(v: Val): seq<Val> { if v.List? then v.vs else [] }
  function FstOf(v: Val): Val { if v.Both? then v.a else v }
  function SndOf(v: Val): Val { if v.Both? then v.b2 else v }

  function RawsBack(vs: seq<Val>): seq<Hash32> { if vs == [] then [] else [RawOf(vs[0])] + RawsBack(vs[1..]) }

  function KindBack(v: Val): ValidKind {
    if !v.Tagged? || v.t == 0 then Explicit
    else if v.t == 1 then BackingSeconded(RawOf(v.v))
    else if v.t == 2 then BackingValid(RawOf(v.v))
    else if v.t == 3 then ApprovalChecking
    else ApprovalCheckingMultipleCandidates(RawsBack(ItemsOf(v.v)))
  }

  function StatementBack(v: Val): DisputeStatement { if v.Tagged? && v.t == 0 then Valid(KindBack(v.v)) else Invalid }

  function StatementsBack(vs: seq<Val>): seq<(DisputeStatement, u32)> {
    if vs == [] then []
    else [(StatementBack(FstOf(vs[0])), NumOf(FstOf(SndOf(vs[0]))))] + StatementsBack(vs[1..])
  }

  function SetBack(v: Val): DisputeStatementSet {
    DisputeStatementSet(RawOf(FstOf(v)), NumOf(FstOf(SndOf(v))), StatementsBack(ItemsOf(SndOf(SndOf(v)))))
  }

  function SetsBack(vs: seq<Val>): seq<DisputeStatementSet> {
    if vs == [] then [] else [SetBack(vs[0])] + SetsBack(vs[1..])
  }

  function PayloadOf(v: Val): seq<bool> { if FstOf(v).BitList? then FstOf(v).bits else [] }

  function PayloadsBack(vs: seq<Val>): seq<seq<bool>> {
    if vs == [] then [] else [PayloadOf(vs[0])] + PayloadsBack(vs[1..])
  }

  /*** The SCALE values fit their shapes and read back ***/

  lemma {:induction false} RawListBack(hs: seq<Hash32>)
    ensures |RawList(hs)| == |hs| && forall i :: 0 <= i < |hs| ==> Fits(H256, RawList(hs)[i])
    ensures RawsBack(RawList(hs)) == hs
  {
    if hs != [] {
      RawListBack(hs[1..]);
      assert RawList(hs)[1..] == RawList(hs[1..]);
      assert hs == [hs[0]] + hs[1..];
    }
  }

  lemma KindValBack(k: ValidKind)
    requires k.ApprovalCheckingMultipleCandidates? ==> |k.hs| < TWO_32
    ensures Fits(VALID_KIND, KindVal(k)) && KindBack(KindVal(k)) == k
  {
    var v := KindVal(k);
    if k.ApprovalCheckingMultipleCandidates? {
      RawListBack(k.hs);
      assert Fits(KIND4, v);
    }
    assert v.t >= 3 ==> Fits(KIND3, v);
    assert v.t >= 2 ==> Fits(KIND2, v);
    assert v.t >= 1 ==> Fits(KIND1, v);
  }

  lemma StatementValBack(s: DisputeStatement)
    requires StatementLimits(s)
    ensures Fits(STATEMENT, StatementVal(s)) && StatementBack(StatementVal(s)) == s
  {
    if s.Valid? {
      KindValBack(s.kind);
    } else {
      assert Fits(INVALID_KIND, Tagged(0, Nothing));
      assert Fits(INVALID_CASE, StatementVal(s));
    }
  }

  lemma TailFits(index: u32, signature: Signature)
    ensures Fits(SIGNED_TAIL, Both(Num(index), Raw(signature)))
  {
    Pow256Values();
  }

  lemma {:induction false} StatementValsBack(ss: seq<SignedStatement>)
    requires forall st :: st in ss ==> StatementLimits(st.statement)
    ensures |StatementVals(ss)| == |ss| && forall i :: 0 <= i < |ss| ==> Fits(SIGNED_STATEMENT, StatementVals(ss)[i])
    ensures StatementsBack(StatementVals(ss)) == Unsigned(ss)
  {
    if ss != [] {
      StatementValBack(ss[0].statement);
      TailFits(ss[0].validatorIndex, ss[0].signature);
      StatementValsBack(ss[1..]);
      assert StatementVals(ss)[1..] == StatementVals(ss[1..]);
    }
  }

  lemma SetValBack(s: SignedSet)
    requires SetLimits(s)
    ensures Fits(STATEMENT_SET, SetVal(s)) && SetBack(SetVal(s)) == UnsignedSet(s)
  {
    StatementValsBack(s.statements);
    assert Fits(U32, Num(s.session)) by { Pow256Values(); }
    assert Fits(SET_TAIL, SetVal(s).b2);
  }

  lemma {:induction false} SetValsBack(ss: seq<SignedSet>)
    requires forall s :: s in ss ==> SetLimits(s)
    ensures |SetVals(ss)| == |ss| && forall i :: 0 <= i < |ss| ==> Fits(STATEMENT_SET, SetVals(ss)[i])
    ensures SetsBack(SetVals(ss)) == UnsignedSets(ss)
  {
    if ss != [] {
      SetValBack(ss[0]);
      SetValsBack(ss[1..]);
      assert SetVals(ss)[1..] == SetVals(ss[1..]);
    }
  }

  lemma {:induction false} BitfieldValsBack(bs: seq<SignedBitfield>)
    requires forall b :: b in bs ==> |b.payload| <= MAX_BITS
    ensures |BitfieldVals(bs)| == |bs| && forall i :: 0 <= i < |bs| ==> Fits(SIGNED_BITFIELD, BitfieldVals(bs)[i])
    ensures PayloadsBack(BitfieldVals(bs)) == Payloads(bs)
  {
    if bs != [] {
      TailFits(bs[0].validatorIndex, bs[0].signature);
      assert Fits(SIGNED_BITFIELD, BitfieldVal(bs[0]));
      BitfieldValsBack(bs[1..]);
      assert BitfieldVals(bs)[1..] == BitfieldVals(bs[1..]);
    }
  }

  lemma BodyValFits(p: ParaInherent)
    requires Encodable(p)
    ensures Fits(BODY, BodyVal(p))
  {
    var v := BodyVal(p);
    BitfieldValsBack(p.bitfields);
    SetValsBack(p.disputes);
    VecFits(SIGNED_BITFIELD, BitfieldVals(p.bitfields));
    VecFits(STATEMENT_SET, SetVals(p.disputes));
    PairFits(VecOf(STATEMENT_SET), HEADER, v.b2.b2.a, v.b2.b2.b2);
    PairFits(VecOf(BACKED_CANDIDATE), DISPUTES_AND_HEADER, v.b2.a, v.b2.b2);
    PairFits(VecOf(SIGNED_BITFIELD), AFTER_BITFIELDS, v.a, v.b2);
  }

  lemma VecFits(elem: Shape, vs: seq<Val>)
    requires |vs| < TWO_32 && forall i :: 0 <= i < |vs| ==> Fits(elem, vs[i])
    ensures Fits(VecOf(elem), List(vs))
  {
  }

  lemma PairFits(fst: Shape, snd: Shape, v: Val, w: Val)
    requires Fits(fst, v) && Fits(snd, w)
    ensures Fits(Pair(fst, snd), Both(v, w))
  {
  }

  /*** The extrinsic envelope ***/

  /** The extrinsic of an inherent; `None` when a list or the whole does not fit the codec's lengths. */
  function EncodeExtrinsic(p: ParaInherent, version: u8, pallet: u8, call: u8): Option<Bytes> {
    if !Encodable(p) then None
    else
      BodyValFits(p);
      var inner := [version, pallet, call] + Encode(BODY, BodyVal(p));
      if |inner| < TWO_32 then Some(CompactBytes(|inner|) + inner) else None
  }

  /** What the decoder of the extrinsic accepts and returns, shape by shape. */
  function Parainherent(extrinsic: Bytes): Option<InherentData> {
    match DecodeCompact(extrinsic)
    case Fail => None
    case Got(len, input) =>
      if len != |input| || |input| < 3 || input[0] / 64 != 0 then None
      else
        match Decode(BODY, input[3..])
        case Fail => None
        case Got(v, rest) => if rest != [] then None else Some(BodyBack(v))
  }

  function BodyBack(v: Val): InherentData {
    InherentData(PayloadsBack(ItemsOf(FstOf(v))), SetsBack(ItemsOf(FstOf(SndOf(SndOf(v))))))
  }

  lemma EnvelopeOpens(version: u8, pallet: u8, call: u8, body: Bytes)
    requires 3 + |body| < TWO_32
    ensures var inner := [version, pallet, call] + body;
            Parainherent(CompactBytes(|inner|) + inner) ==
            match Decode(BODY, body)
            case Fail => None
            case Got(v, rest) => if version < 64 && rest == [] then Some(BodyBack(v)) else None
  {
    var inner := [version, pallet, call] + body;
    CompactRoundTrip(|inner|, inner);
    assert inner[3..] == body;
  }

  /**
   Round trip of the extrinsic: any inherent, any call indices, any signatures, backed candidates and
   header come back; a version byte that is not that of a bare extrinsic is refused.
   */
  lemma ExtrinsicRoundTrip(p: ParaInherent, version: u8, pallet: u8, call: u8)
    ensures var e := EncodeExtrinsic(p, version, pallet, call);
            e.Some? ==> Parainherent(e.value) == if version < 64 then Some(Content(p)) else None
  {
    if EncodeExtrinsic(p, version, pallet, call).Some? {
      BodyValFits(p);
      var body := Encode(BODY, BodyVal(p));
      RoundTrip(BODY, BodyVal(p), []);
      assert body + [] == body;
      EnvelopeOpens(version, pallet, call, body);
      BitfieldValsBack(p.bitfields);
      SetValsBack(p.disputes);
    }
  }

  /** The length prefix and the closing header anchor the extrinsic: nothing can be cut off or appended. */
  lemma ExtrinsicExact(e: Bytes, x: Bytes)
    requires x != []
    ensures Parainherent(e).Some? ==> Parainherent(e + x).None?
    ensures Parainherent(e + x).Some? ==> Parainherent(e).None?
  {
    if DecodeCompact(e).Got? {
      CompactExtends(e, x);
    }
  }

  /*** The decoder with its moving cursor ***/

  /** Reads `size` bytes at the cursor. */
  method Skip(size: nat, input: Bytes) returns (ok: bool, rest: Bytes)
    ensures ok <==> size <= |input|
    ensures ok ==> rest == input[size..]
  {
    ok := size <= |input|;
    rest := if ok then input[size..] else input;
  }

  function Bitfields(count: nat, b: Bytes): Parsed<seq<seq<bool>>> {
    match DecodeMany(SIGNED_BITFIELD, count, b)
    case Fail => Fail
    case Got(vs, rest) => Got(PayloadsBack(vs), rest)
  }

  function Prepend(before: seq<seq<bool>>, r: Parsed<seq<seq<bool>>>): Parsed<seq<seq<bool>>> {
    match r
    case Fail => Fail
    case Got(ps, rest) => Got(before + ps, rest)
  }

  lemma BitfieldsStep(count: nat, b: Bytes)
    requires count > 0
    ensures Bitfields(count, b) ==
            if DecodeBits(b).Fail? || |DecodeBits(b).rest| < 68 then Fail
            else Prepend([DecodeBits(b).value], Bitfields(count - 1, DecodeBits(b).rest[4..][64..]))
  {
    SignedBitfieldStep(b);
    if Decode(SIGNED_BITFIELD, b).Got? {
      var first := Decode(SIGNED_BITFIELD, b);
      var others := DecodeMany(SIGNED_BITFIELD, count - 1, first.rest);
      if others.Got? {
        assert ([first.value] + others.value)[1..] == others.value;
      }
    }
  }

  /** The bitfields: payload kept, validator index and signature passed over. */
  method ReadBitfields(count: nat, start: Bytes) returns (r: Parsed<seq<seq<bool>>>)
    ensures r == Bitfields(count, start)
  {
    var bitfields: seq<seq<bool>> := [];
    var input := start;
    PrependEmpty(Bitfields(count, start));
    for i := 0 to count
      invariant Bitfields(count, start) == Prepend(bitfields, Bitfields(count - i, input))
    {
      BitfieldsStep(count - i, input);
      var payload := DecodeBits(input);
      if payload.Fail? {
        return Fail;
      }
      var ok1, afterIndex := Skip(4, payload.rest);
      if !ok1 {
        return Fail;
      }
      var ok2, afterSignature := Skip(64, afterIndex);
      if !ok2 {
        return Fail;
      }
      PrependTwice(bitfields, payload.value, Bitfields(count - i - 1, afterSignature));
      input := afterSignature;
      bitfields := bitfields + [payload.value];
    }
    assert bitfields + [] == bitfields;
    r := Got(bitfields, input);
  }

  lemma PrependEmpty(r: Parsed<seq<seq<bool>>>)
    ensures Prepend([], r) == r
  {
    if r.Got? {
      assert [] + r.value == r.value;
    }
  }

  lemma PrependTwice(before: seq<seq<bool>>, p: seq<bool>, r: Parsed<seq<seq<bool>>>)
    ensures Prepend(before, Prepend([p], r)) == Prepend(before + [p], r)
  {
    if r.Got? {
      assert before + ([p] + r.value) == before + [p] + r.value;
    }
  }

  lemma SignedBitfieldStep(b: Bytes)
    ensures Decode(SIGNED_BITFIELD, b).Got? <==> DecodeBits(b).Got? && |DecodeBits(b).rest| >= 68
    ensures Decode(SIGNED_BITFIELD, b).Got? ==>
      && Decode(SIGNED_BITFIELD, b).rest == DecodeBits(b).rest[4..][64..]
      && PayloadOf(Decode(SIGNED_BITFIELD, b).value) == DecodeBits(b).value
  {
    if DecodeBits(b).Got? {
      assert Decode(Bits, b).Got?;
      TailStep(DecodeBits(b).rest);
    }
  }

  lemma TailStep(b: Bytes)
    ensures Decode(SIGNED_TAIL, b).Got? <==> |b| >= 68
    ensures Decode(SIGNED_TAIL, b).Got? ==> Decode(SIGNED_TAIL, b).rest == b[4..][64..]
  {
  }

  method DecodeParainherent(extrinsic: Bytes) returns (r: Option<InherentData>)
    ensures r == Parainherent(extrinsic)
  {
    var length := DecodeCompact(extrinsic);
    if length.Fail? || length.value != |length.rest| {
      return None;
    }
    var input := length.rest;
    if input == [] || input[0] / 64 != 0 {
      return None;
    }
    var ok, body := Skip(3, input);
    if !ok {
      return None;
    }
    var count := DecodeCompact(body);
    if count.Fail? {
      return None;
    }
    var bitfields := ReadBitfields(count.value, count.rest);
    if bitfields.Fail? {
      return None;
    }
    var backed := Decode(VecOf(BACKED_CANDIDATE), bitfields.rest);
    if backed.Fail? {
      return None;
    }
    var disputes := Decode(VecOf(STATEMENT_SET), backed.rest);
    if disputes.Fail? {
      return None;
    }
    var header := Decode(HEADER, disputes.rest);
    if header.Fail? || header.rest != [] {
      return None;
    }
    r := Some(InherentData(bitfields.value, SetsBack(ItemsOf(disputes.value))));
  }
}

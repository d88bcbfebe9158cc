/** The metadata-driven decoder of the inherent, over dynamic values, and its agreement with the byte decoder. */
module Dynamic {
  import opened Prelude
  import opened Scale
  import opened Inherent

  /** A value decoded through the metadata. A variant's fields are a composite of their own. */
  datatype Value =
    | U128(n: nat)
    | Boolean(b: bool)
    | BitSequence(bits: seq<bool>)
    | Unnamed(vs: seq<Value>)
    | Named(fields: seq<(string, Value)>)
    | Variant(name: string, values: Value)
    | Other

  /*** The decoders ***/

  function FindField(fields: seq<(string, Value)>, name: string): Option<Value> {
    if fields == [] then None
    else if fields[0].0 == name then Some(fields[0].1)
    else FindField(fields[1..], name)
  }

  /** Looking up a field by name, in a named composite or in the fields of a variant. */
  function At(v: Value, name: string): Option<Value> {
    match v
    case Named(fields) => FindField(fields, name)
    case Variant(_, values) => if values.Named? then FindField(values.fields, name) else None
    case _ => None
  }

  function DecodeU32(v: Value): Option<u32> {
    match v
    case U128(n) => if n < TWO_32 then Some(n) else None
    case Unnamed(vs) => if vs == [] then None else DecodeU32(vs[0])
    case _ => None
  }

  function DecodeByteSlice(vs: seq<Value>): Option<Bytes> {
    if vs == [] then Some([])
    else if !vs[0].U128? || vs[0].n >= 256 then None
    else match DecodeByteSlice(vs[1..]) case None => None case Some(bs) => Some([vs[0].n] + bs)
  }

  function DecodeH256(v: Value): Option<Hash32> {
    match v
    case Unnamed(vs) =>
      if |vs| == 32 then
        (match DecodeByteSlice(vs) case None => None case Some(b) => if |b| == 32 then Some(b) else None)
      else if |vs| == 1 then DecodeH256(vs[0]) else None
    case _ => None
  }

  function DecodeCandidateHash(v: Value): Option<Hash32> {
    match v
    case Unnamed(vs) => if |vs| == 1 then DecodeH256(vs[0]) else None
    case Named(fields) => (match FindField(fields, "0") case None => None case Some(h) => DecodeH256(h))
    case _ => None
  }

  function DecodeBools(vs: seq<Value>): Option<seq<bool>> {
    if vs == [] then Some([])
    else
      match DecodeBools(vs[1..])
      case None => None
      case Some(rest) =>
        if vs[0].Boolean? then Some([vs[0].b] + rest)
        else if vs[0].U128? then Some([vs[0].n != 0] + rest)
        else None
  }

  function DecodeBitfield(v: Value): Option<seq<bool>> {
    match v
    case BitSequence(bits) => Some(bits)
    case Unnamed(vs) => if |vs| == 1 then DecodeBitfield(vs[0]) else DecodeBools(vs)
    case _ => None
  }

  /** The first field of a variant. */
  function InnerValue(values: Value): Option<Value> {
    match values
    case Unnamed(vs) => if vs == [] then None else Some(vs[0])
    case Named(fields) => if fields == [] then None else Some(fields[0].1)
    case _ => None
  }

  function DecodeHashes(vs: seq<Value>): Option<seq<Hash32>> {
    if vs == [] then Some([])
    else
      match DecodeCandidateHash(vs[0])
      case None => None
      case Some(h) => match DecodeHashes(vs[1..]) case None => None case Some(hs) => Some([h] + hs)
  }

  function DecodeValidKind(values: Value): Option<ValidKind> {
    match InnerValue(values)
    case None => None
    case Some(inner) =>
      if !inner.Variant? then None
      else if inner.name == "Explicit" then Some(Explicit)
      else if inner.name == "ApprovalChecking" then Some(ApprovalChecking)
      else
        match InnerValue(inner.values)
        case None => None
        case Some(field) =>
          if inner.name == "BackingSeconded" then
            (match DecodeH256(field) case None => None case Some(h) => Some(BackingSeconded(h)))
          else if inner.name == "BackingValid" then
            (match DecodeH256(field) case None => None case Some(h) => Some(BackingValid(h)))
          else if inner.name == "ApprovalCheckingMultipleCandidates" && field.Unnamed? then
            (match DecodeHashes(field.vs)
             case None => None
             case Some(hs) => Some(ApprovalCheckingMultipleCandidates(hs)))
          else None
  }

  function DecodeStatement(v: Value): Option<DisputeStatement> {
    if !v.Variant? then None
    else if v.name == "Valid" then (match DecodeValidKind(v.values) case None => None case Some(k) => Some(Valid(k)))
    else if v.name == "Invalid" then
      (match InnerValue(v.values)
       case None => None
       case Some(inner) => if inner.Variant? && inner.name == "Explicit" then Some(Invalid) else None)
    else None
  }

  /** One `(statement, validator index, signature)` tuple; the signature is not looked at. */
  function DecodeTuple(v: Value): Option<(DisputeStatement, u32)> {
    if !v.Unnamed? || |v.vs| < 3 then None
    else
      match DecodeStatement(v.vs[0])
      case None => None
      case Some(st) => match DecodeU32(v.vs[1]) case None => None case Some(i) => Some((st, i))
  }

  function DecodeTuples(vs: seq<Value>): Option<seq<(DisputeStatement, u32)>> {
    if vs == [] then Some([])
    else
      match DecodeTuples(Front(vs))
      case None => None
      case Some(before) => match DecodeTuple(Last(vs)) case None => None case Some(t) => Some(before + [t])
  }

  function DecodeSet(v: Value): Option<DisputeStatementSet> {
    match (At(v, "candidate_hash"), At(v, "session"), At(v, "statements"))
    case (Some(h), Some(n), Some(ss)) =>
      (match (DecodeCandidateHash(h), DecodeU32(n))
       case (Some(hash), Some(session)) =>
         if !ss.Unnamed? then None
         else
           (match DecodeTuples(ss.vs)
            case None => None
            case Some(ts) => Some(DisputeStatementSet(hash, session, ts)))
       case _ => None)
    case _ => None
  }

  /** The source's loop over the statements of one set. */
  method DecodeDisputeStatementSet(v: Value) returns (r: Option<DisputeStatementSet>)
    ensures r == DecodeSet(v)
  {
    var rawHash, rawSession, rawStatements := At(v, "candidate_hash"), At(v, "session"), At(v, "statements");
    if rawHash.None? || rawSession.None? || rawStatements.None? {
      return None;
    }
    var hash, session := DecodeCandidateHash(rawHash.value), DecodeU32(rawSession.value);
    if hash.None? || session.None? || !rawStatements.value.Unnamed? {
      return None;
    }
    var vs := rawStatements.value.vs;
    var statements: seq<(DisputeStatement, u32)> := [];
    for i := 0 to |vs|
      invariant DecodeTuples(vs[..i]) == Some(statements)
    {
      assert Front(vs[..i + 1]) == vs[..i];
      var tuple := DecodeTuple(vs[i]);
      if tuple.None? {
        TuplesRefused(vs, i);
        return None;
      }
      statements := statements + [tuple.value];
    }
    assert vs[..|vs|] == vs;
    r := Some(DisputeStatementSet(hash.value, session.value, statements));
  }

  lemma {:induction false} TuplesRefused(vs: seq<Value>, i: nat)
    requires i < |vs| && DecodeTuple(vs[i]).None?
    ensures DecodeTuples(vs).None?
    decreases |vs|
  {
    if i < |vs| - 1 {
      TuplesRefused(Front(vs), i);
    }
  }

  function DecodePayloads(vs: seq<Value>): Option<seq<seq<bool>>> {
    if vs == [] then Some([])
    else
      match At(vs[0], "payload")
      case None => None
      case Some(p) =>
        match DecodeBitfield(p)
        case None => None
        case Some(bits) => match DecodePayloads(vs[1..]) case None => None case Some(ps) => Some([bits] + ps)
  }

  function DecodeSets(vs: seq<Value>): Option<seq<DisputeStatementSet>> {
    if vs == [] then Some([])
    else
      match DecodeSet(vs[0])
      case None => None
      case Some(s) => match DecodeSets(vs[1..]) case None => None case Some(ss) => Some([s] + ss)
  }

  /** The `data` argument of the call, by name or as the first unnamed field. */
  function CallData(raw: Value): Option<Value> {
    match raw
    case Named(fields) => FindField(fields, "data")
    case Unnamed(vs) => if vs == [] then None else Some(vs[0])
    case _ => None
  }

  function DecodeInherentData(raw: Value): Option<InherentData> {
    match CallData(raw)
    case None => None
    case Some(data) =>
      match (At(data, "bitfields"), At(data, "disputes"))
      case (Some(bs), Some(ds)) =>
        if !bs.Unnamed? || !ds.Unnamed? then None
        else
          (match (DecodePayloads(bs.vs), DecodeSets(ds.vs))
           case (Some(bitfields), Some(disputes)) => Some(InherentData(bitfields, disputes))
           case _ => None)
      case _ => None
  }

  /*** The dynamic value of an inherent ***/

  /** How many one-field wrapper types the metadata puts around hashes, indices and bit vectors. */
  datatype Wrapping = Wrapping(hash: nat, index: nat, bits: nat)

  function Wrap(k: nat, v: Value): Value { if k == 0 then v else Unnamed([Wrap(k - 1, v)]) }

  function ByteValues(b: Bytes): seq<Value> { if b == [] then [] else [U128(b[0])] + ByteValues(b[1..]) }

  function H256Value(h: Hash32, w: Wrapping): Value { Wrap(w.hash, Unnamed(ByteValues(h))) }

  /** A candidate hash is a one-field struct around a hash. */
  function CandidateHashValue(h: Hash32, w: Wrapping): Value { Unnamed([H256Value(h, w)]) }

  function HashValues(hs: seq<Hash32>, w: Wrapping): seq<Value> {
    if hs == [] then [] else [CandidateHashValue(hs[0], w)] + HashValues(hs[1..], w)
  }

  function KindValue(k: ValidKind, w: Wrapping): Value {
    match k
    case Explicit => Variant("Explicit", Unnamed([]))
    case BackingSeconded(h) => Variant("BackingSeconded", Unnamed([H256Value(h, w)]))
    case BackingValid(h) => Variant("BackingValid", Unnamed([H256Value(h, w)]))
    case ApprovalChecking => Variant("ApprovalChecking", Unnamed([]))
    case ApprovalCheckingMultipleCandidates(hs) =>
      Variant("ApprovalCheckingMultipleCandidates", Unnamed([Unnamed(HashValues(hs, w))]))
  }

  function StatementValue(s: DisputeStatement, w: Wrapping): Value {
    match s
    case Valid(k) => Variant("Valid", Unnamed([KindValue(k, w)]))
    case Invalid => Variant("Invalid", Unnamed([Variant("Explicit", Unnamed([]))]))
  }

  function TupleValue(s: SignedStatement, w: Wrapping): Value {
    Unnamed([StatementValue(s.statement, w), Wrap(w.index, U128(s.validatorIndex)), Unnamed(ByteValues(s.signature))])
  }

  function TupleValues(ss: seq<SignedStatement>, w: Wrapping): seq<Value> {
    if ss == [] then [] else [TupleValue(ss[0], w)] + TupleValues(ss[1..], w)
  }

  function SetValue(s: SignedSet, w: Wrapping): Value {
    Named([("candidate_hash", CandidateHashValue(s.candidateHash, w)), ("session", U128(s.session)),
           ("statements", Unnamed(TupleValues(s.statements, w)))])
  }

  function SetValues(ss: seq<SignedSet>, w: Wrapping): seq<Value> {
    if ss == [] then [] else [SetValue(ss[0], w)] + SetValues(ss[1..], w)
  }

  function BitfieldValue(b: SignedBitfield, w: Wrapping): Value {
    Named([("payload", Wrap(w.bits, BitSequence(b.payload))),
           ("validator_index", Wrap(w.index, U128(b.validatorIndex))),
           ("signature", Unnamed(ByteValues(b.signature)))])
  }

  function BitfieldValues(bs: seq<SignedBitfield>, w: Wrapping): seq<Value> {
    if bs == [] then [] else [BitfieldValue(bs[0], w)] + BitfieldValues(bs[1..], w)
  }

  /** The call's arguments, whatever dynamic values stand for the backed candidates and the header. */
  function CallValue(p: ParaInherent, w: Wrapping, backed: Value, header: Value, named: bool): Value {
    var data := Named([("bitfields", Unnamed(BitfieldValues(p.bitfields, w))), ("backed_candidates", backed),
                       ("disputes", Unnamed(SetValues(p.disputes, w))), ("parent_header", header)]);
    if named then Named([("data", data)]) else Unnamed([data])
  }

  /*** Round trips ***/

  lemma {:induction false} BytesBack(b: Bytes)
    ensures |ByteValues(b)| == |b| && DecodeByteSlice(ByteValues(b)) == Some(b)
  {
    if b != [] {
      BytesBack(b[1..]);
      var vs := ByteValues(b);
      assert vs == [U128(b[0])] + ByteValues(b[1..]);
      assert vs[0] == U128(b[0]) && vs[1..] == ByteValues(b[1..]);
      hide ByteValues;
      assert b == [b[0]] + b[1..];
    }
  }

  lemma {:induction false} HashBack(h: Hash32, k: nat)
    ensures DecodeH256(Wrap(k, Unnamed(ByteValues(h)))) == Some(h)
  {
    if k == 0 {
      BytesBack(h);
    } else {
      HashBack(h, k - 1);
    }
  }

  lemma {:induction false} IndexBack(n: u32, k: nat)
    ensures DecodeU32(Wrap(k, U128(n))) == Some(n)
  {
    if k > 0 {
      IndexBack(n, k - 1);
    }
  }

  lemma {:induction false} BitsBack(bits: seq<bool>, k: nat)
    ensures DecodeBitfield(Wrap(k, BitSequence(bits))) == Some(bits)
  {
    if k > 0 {
      BitsBack(bits, k - 1);
    }
  }

  lemma {:induction false} HashesBack(hs: seq<Hash32>, w: Wrapping)
    ensures DecodeHashes(HashValues(hs, w)) == Some(hs)
  {
    if hs != [] {
      HashBack(hs[0], w.hash);
      HashesBack(hs[1..], w);
      assert HashValues(hs, w)[1..] == HashValues(hs[1..], w);
      assert hs == [hs[0]] + hs[1..];
    }
  }

  lemma StatementBack(s: DisputeStatement, w: Wrapping)
    ensures DecodeStatement(StatementValue(s, w)) == Some(s)
  {
    if s.Valid? {
      match s.kind
      case BackingSeconded(h) => HashBack(h, w.hash);
      case BackingValid(h) => HashBack(h, w.hash);
      case ApprovalCheckingMultipleCandidates(hs) => HashesBack(hs, w);
      case _ =>
    }
  }

  lemma TupleBack(s: SignedStatement, w: Wrapping)
    ensures DecodeTuple(TupleValue(s, w)) == Some((s.statement, s.validatorIndex))
  {
    StatementBack(s.statement, w);
    IndexBack(s.validatorIndex, w.index);
  }

  lemma {:induction false} TuplesConcat(a: Value, vs: seq<Value>)
    ensures DecodeTuples([a] + vs) ==
            match (DecodeTuple(a), DecodeTuples(vs))
            case (Some(t), Some(ts)) => Some([t] + ts)
            case _ => None
    decreases |vs|
  {
    if vs == [] {
      assert Front([a]) == [] && [a] + vs == [a];
      if DecodeTuple(a).Some? {
        assert [] + [DecodeTuple(a).value] == [DecodeTuple(a).value] + [];
      }
    } else {
      assert Front([a] + vs) == [a] + Front(vs) && Last([a] + vs) == Last(vs);
      TuplesConcat(a, Front(vs));
      if DecodeTuple(a).Some? && DecodeTuples(vs).Some? {
        var t, before, last := DecodeTuple(a).value, DecodeTuples(Front(vs)).value, DecodeTuple(Last(vs)).value;
        assert [t] + before + [last] == [t] + (before + [last]);
      }
    }
  }

  lemma {:induction false} TuplesBack(ss: seq<SignedStatement>, w: Wrapping)
    ensures DecodeTuples(TupleValues(ss, w)) == Some(Unsigned(ss))
  {
    if ss != [] {
      TupleBack(ss[0], w);
      TuplesBack(ss[1..], w);
      TuplesConcat(TupleValue(ss[0], w), TupleValues(ss[1..], w));
    }
  }

  lemma SetBackAgain(s: SignedSet, w: Wrapping)
    ensures DecodeSet(SetValue(s, w)) == Some(UnsignedSet(s))
  {
    var hash := CandidateHashValue(s.candidateHash, w);
    var statements := Unnamed(TupleValues(s.statements, w));
    HashBack(s.candidateHash, w.hash);
    TuplesBack(s.statements, w);
    ThreeFields("candidate_hash", hash, "session", U128(s.session), "statements", statements);
  }

  lemma ThreeFields(a: string, x: Value, b: string, y: Value, c: string, z: Value)
    requires a != b && a != c && b != c
    ensures var v := Named([(a, x), (b, y), (c, z)]);
            At(v, a) == Some(x) && At(v, b) == Some(y) && At(v, c) == Some(z)
  {
    var fields := [(a, x), (b, y), (c, z)];
    FoundAt(fields, 0);
    FoundAt(fields, 1);
    FoundAt(fields, 2);
  }

  lemma {:induction false} FoundAt(fields: seq<(string, Value)>, i: nat)
    requires i < |fields| && forall j :: 0 <= j < i ==> fields[j].0 != fields[i].0
    ensures FindField(fields, fields[i].0) == Some(fields[i].1)
  {
    if i > 0 {
      FoundAt(fields[1..], i - 1);
    }
  }

  lemma {:induction false} SetsBackAgain(ss: seq<SignedSet>, w: Wrapping)
    ensures DecodeSets(SetValues(ss, w)) == Some(UnsignedSets(ss))
  {
    if ss != [] {
      SetBackAgain(ss[0], w);
      SetsBackAgain(ss[1..], w);
      assert SetValues(ss, w)[1..] == SetValues(ss[1..], w);
    }
  }

  lemma {:induction false} BitfieldsBack(bs: seq<SignedBitfield>, w: Wrapping)
    ensures DecodePayloads(BitfieldValues(bs, w)) == Some(Payloads(bs))
  {
    if bs != [] {
      BitsBack(bs[0].payload, w.bits);
      BitfieldsBack(bs[1..], w);
      assert BitfieldValues(bs, w)[1..] == BitfieldValues(bs[1..], w);
    }
  }

  lemma DynamicRoundTrip(p: ParaInherent, w: Wrapping, backed: Value, header: Value, named: bool)
    ensures DecodeInherentData(CallValue(p, w, backed, header, named)) == Some(Content(p))
  {
    BitfieldsBack(p.bitfields, w);
    SetsBackAgain(p.disputes, w);
    var bs, ds := Unnamed(BitfieldValues(p.bitfields, w)), Unnamed(SetValues(p.disputes, w));
    var fields := [("bitfields", bs), ("backed_candidates", backed), ("disputes", ds), ("parent_header", header)];
    FoundAt(fields, 0);
    FoundAt(fields, 2);
  }

  /**
   The two decoders agree: for every inherent within the codec's limits, with any signatures, skipped parts,
   call indices and metadata wrapping, both return its bitfields and disputes, which are those encoded.
   */
  lemma TwoDecodersAgree(p: ParaInherent, version: u8, pallet: u8, call: u8, w: Wrapping, backed: Value, header: Value,
                         named: bool)
    requires version < 64
    ensures DecodeInherentData(CallValue(p, w, backed, header, named)) == Some(Content(p))
    ensures var e := EncodeExtrinsic(p, version, pallet, call);
            e.Some? ==> Parainherent(e.value) == DecodeInherentData(CallValue(p, w, backed, header, named))
  {
    ExtrinsicRoundTrip(p, version, pallet, call);
    DynamicRoundTrip(p, w, backed, header, named);
  }
}

/** Which inherent a dynamic value stands for, as a relation, and the decoder decides it: acceptance and refusal. */
module Denotations {
  import opened Prelude
  import opened Inherent
  import opened Dynamic

  /*** Fields ***/

  predicate FirstField(fields: seq<(string, Value)>, name: string, i: nat) {
    i < |fields| && fields[i].0 == name && forall j :: 0 <= j < i ==> fields[j].0 != name
  }

  ghost predicate InFields(fields: seq<(string, Value)>, name: string, x: Value) {
    exists i: nat :: FirstField(fields, name, i) && fields[i].1 == x
  }

  /** The first field of that name, of a composite or of the fields of a variant. */
  ghost predicate HasField(v: Value, name: string, x: Value) {
    match v
    case Named(fields) => InFields(fields, name, x)
    case Variant(_, values) => values.Named? && InFields(values.fields, name, x)
    case _ => false
  }

  lemma {:induction false} FieldFound(fields: seq<(string, Value)>, name: string, x: Value)
    ensures FindField(fields, name) == Some(x) <==> InFields(fields, name, x)
  {
    if fields != [] {
      var rest := fields[1..];
      FieldFound(rest, name, x);
      if fields[0].0 == name {
        assert FirstField(fields, name, 0);
      } else {
        if i: nat :| FirstField(rest, name, i) && rest[i].1 == x {
          LaterField(fields, name, i + 1);
        }
        if i: nat :| FirstField(fields, name, i) && fields[i].1 == x {
          LaterField(fields, name, i);
        }
      }
    }
  }

  lemma LaterField(fields: seq<(string, Value)>, name: string, i: nat)
    requires fields != [] && fields[0].0 != name
    ensures FirstField(fields, name, i) <==> i > 0 && FirstField(fields[1..], name, i - 1)
  {
    var rest := fields[1..];
    assert forall j :: 0 <= j < |rest| ==> rest[j] == fields[j + 1];
    if i > 0 && FirstField(rest, name, i - 1) {
      forall j | 0 <= j < i
        ensures fields[j].0 != name
      {
        assert j > 0 ==> fields[j] == rest[j - 1];
      }
    }
  }

  lemma FieldAt(v: Value, name: string, x: Value)
    ensures At(v, name) == Some(x) <==> HasField(v, name, x)
  {
    match v
    case Named(fields) => FieldFound(fields, name, x);
    case Variant(_, values) => if values.Named? { FieldFound(values.fields, name, x); }
    case _ =>
  }

  /*** Numbers, hashes, bits ***/

  predicate IsIndex(v: Value, n: u32) { v == U128(n) || (v.Unnamed? && v.vs != [] && IsIndex(v.vs[0], n)) }

  lemma {:induction false} IndexExactly(v: Value, n: u32)
    ensures DecodeU32(v) == Some(n) <==> IsIndex(v, n)
  {
    if v.Unnamed? && v.vs != [] {
      IndexExactly(v.vs[0], n);
    }
  }

  predicate AreBytes(vs: seq<Value>, b: Bytes) {
    |vs| == |b| && forall i :: 0 <= i < |vs| ==> vs[i] == U128(b[i])
  }

  /** Thirty-two byte values, under any number of one-field wrappers. */
  predicate IsHash(v: Value, h: Hash32) {
    v.Unnamed? && if |v.vs| == 32 then AreBytes(v.vs, h) else |v.vs| == 1 && IsHash(v.vs[0], h)
  }

  lemma {:induction false} BytesExactly(vs: seq<Value>, b: Bytes)
    ensures DecodeByteSlice(vs) == Some(b) <==> AreBytes(vs, b)
  {
    if vs != [] && b != [] {
      BytesExactly(vs[1..], b[1..]);
      assert b == [b[0]] + b[1..];
      assert forall i :: 1 <= i < |vs| ==> vs[i] == vs[1..][i - 1];
      assert forall i :: 1 <= i < |b| ==> b[i] == b[1..][i - 1];
      if AreBytes(vs[1..], b[1..]) && vs[0] == U128(b[0]) {
        assert AreBytes(vs, b);
      }
      if AreBytes(vs, b) {
        assert AreBytes(vs[1..], b[1..]);
      }
      if DecodeByteSlice(vs) == Some(b) {
        assert DecodeByteSlice(vs[1..]).value == b[1..];
      }
    }
  }

  lemma {:induction false} HashExactly(v: Value, h: Hash32)
    ensures DecodeH256(v) == Some(h) <==> IsHash(v, h)
  {
    if v.Unnamed? && |v.vs| == 32 {
      BytesExactly(v.vs, h);
    } else if v.Unnamed? && |v.vs| == 1 {
      HashExactly(v.vs[0], h);
    }
  }

  ghost predicate IsCandidateHash(v: Value, h: Hash32) {
    match v
    case Unnamed(vs) => |vs| == 1 && IsHash(vs[0], h)
    case Named(fields) => exists x :: InFields(fields, "0", x) && IsHash(x, h)
    case _ => false
  }

  lemma CandidateHashExactly(v: Value, h: Hash32)
    ensures DecodeCandidateHash(v) == Some(h) <==> IsCandidateHash(v, h)
  {
    match v
    case Unnamed(vs) => if |vs| == 1 { HashExactly(vs[0], h); }
    case Named(fields) =>
      forall x
        ensures FindField(fields, "0") == Some(x) <==> InFields(fields, "0", x)
        ensures DecodeH256(x) == Some(h) <==> IsHash(x, h)
      {
        FieldFound(fields, "0", x);
        HashExactly(x, h);
      }
    case _ =>
  }

  predicate IsBool(v: Value, b: bool) { v == Boolean(b) || (v.U128? && b == (v.n != 0)) }

  predicate AreBools(vs: seq<Value>, bits: seq<bool>) {
    |vs| == |bits| && forall i :: 0 <= i < |vs| ==> IsBool(vs[i], bits[i])
  }

  /** A bit sequence, or a list of booleans or numbers that is not a one-field wrapper, under any wrappers. */
  predicate IsBits(v: Value, bits: seq<bool>) {
    match v
    case BitSequence(b) => b == bits
    case Unnamed(vs) => if |vs| == 1 then IsBits(vs[0], bits) else AreBools(vs, bits)
    case _ => false
  }

  lemma {:induction false} BoolsExactly(vs: seq<Value>, bits: seq<bool>)
    ensures DecodeBools(vs) == Some(bits) <==> AreBools(vs, bits)
  {
    if vs != [] && bits != [] {
      BoolsExactly(vs[1..], bits[1..]);
      assert bits == [bits[0]] + bits[1..];
      assert forall i :: 1 <= i < |vs| ==> vs[i] == vs[1..][i - 1];
      assert forall i :: 1 <= i < |bits| ==> bits[i] == bits[1..][i - 1];
      if AreBools(vs[1..], bits[1..]) && IsBool(vs[0], bits[0]) {
        assert AreBools(vs, bits);
      }
      if AreBools(vs, bits) {
        assert AreBools(vs[1..], bits[1..]);
      }
      if DecodeBools(vs) == Some(bits) {
        assert DecodeBools(vs[1..]).value == bits[1..];
      }
    }
  }

  lemma {:induction false} BitsExactly(v: Value, bits: seq<bool>)
    ensures DecodeBitfield(v) == Some(bits) <==> IsBits(v, bits)
  {
    if v.Unnamed? && |v.vs| == 1 {
      BitsExactly(v.vs[0], bits);
    } else if v.Unnamed? {
      BoolsExactly(v.vs, bits);
    }
  }

  /*** Statements ***/

  /** The first field of a variant, named or not. */
  predicate IsInner(values: Value, x: Value) {
    || (values.Unnamed? && values.vs != [] && x == values.vs[0])
    || (values.Named? && values.fields != [] && x == values.fields[0].1)
  }

  ghost predicate IsKindOf(name: string, values: Value, k: ValidKind) {
    match k
    case Explicit => name == "Explicit"
    case ApprovalChecking => name == "ApprovalChecking"
    case BackingSeconded(h) => name == "BackingSeconded" && exists x :: IsInner(values, x) && IsHash(x, h)
    case BackingValid(h) => name == "BackingValid" && exists x :: IsInner(values, x) && IsHash(x, h)
    case ApprovalCheckingMultipleCandidates(hs) =>
      name == "ApprovalCheckingMultipleCandidates" &&
      exists x :: IsInner(values, x) && x.Unnamed? && AreCandidates(x.vs, hs)
  }

  ghost predicate AreCandidates(vs: seq<Value>, hs: seq<Hash32>) {
    |vs| == |hs| && forall i :: 0 <= i < |vs| ==> IsCandidateHash(vs[i], hs[i])
  }

  ghost predicate IsStatement(v: Value, s: DisputeStatement) {
    && v.Variant?
    && exists x :: IsInner(v.values, x) && x.Variant? &&
         match s
         case Valid(k) => v.name == "Valid" && IsKindOf(x.name, x.values, k)
         case Invalid => v.name == "Invalid" && x.name == "Explicit"
  }

  lemma {:induction false} HashesExactly(vs: seq<Value>, hs: seq<Hash32>)
    ensures DecodeHashes(vs) == Some(hs) <==> AreCandidates(vs, hs)
  {
    hide IsCandidateHash, DecodeCandidateHash;
    if vs != [] && hs != [] {
      HashesExactly(vs[1..], hs[1..]);
      CandidateHashExactly(vs[0], hs[0]);
      assert hs == [hs[0]] + hs[1..];
      assert forall i :: 1 <= i < |vs| ==> vs[i] == vs[1..][i - 1];
      assert forall i :: 1 <= i < |hs| ==> hs[i] == hs[1..][i - 1];
      if AreCandidates(vs[1..], hs[1..]) && IsCandidateHash(vs[0], hs[0]) {
        assert AreCandidates(vs, hs);
      }
      if AreCandidates(vs, hs) {
        assert AreCandidates(vs[1..], hs[1..]);
      }
      if DecodeHashes(vs) == Some(hs) {
        assert DecodeHashes(vs[1..]).value == hs[1..];
      }
    }
  }

  lemma InnerExactly(values: Value, x: Value)
    ensures InnerValue(values) == Some(x) <==> IsInner(values, x)
  {
  }

  lemma KindExactly(values: Value, k: ValidKind)
    ensures DecodeValidKind(values) == Some(k) <==>
            exists x :: IsInner(values, x) && x.Variant? && IsKindOf(x.name, x.values, k)
  {
    if InnerValue(values).Some? && InnerValue(values).value.Variant? {
      var inner := InnerValue(values).value;
      if InnerValue(inner.values).Some? {
        var field := InnerValue(inner.values).value;
        match k
        case BackingSeconded(h) => HashExactly(field, h);
        case BackingValid(h) => HashExactly(field, h);
        case ApprovalCheckingMultipleCandidates(hs) => if field.Unnamed? { HashesExactly(field.vs, hs); }
        case _ =>
      }
      hide IsHash, DecodeH256, AreCandidates, DecodeHashes;
      assert forall x :: IsInner(inner.values, x) <==> InnerValue(inner.values) == Some(x);
    }
    assert forall x :: IsInner(values, x) <==> InnerValue(values) == Some(x);
  }

  lemma StatementExactly(v: Value, s: DisputeStatement)
    ensures DecodeStatement(v) == Some(s) <==> IsStatement(v, s)
  {
    if v.Variant? {
      assert forall x :: IsInner(v.values, x) <==> InnerValue(v.values) == Some(x);
      if s.Valid? {
        KindExactly(v.values, s.kind);
      }
      hide IsKindOf, DecodeValidKind;
    }
  }

  /** A statement, its validator and at least one more field, which is not looked at. */
  ghost predicate IsTuple(v: Value, t: (DisputeStatement, u32)) {
    v.Unnamed? && |v.vs| >= 3 && IsStatement(v.vs[0], t.0) && IsIndex(v.vs[1], t.1)
  }

  ghost predicate AreTuples(vs: seq<Value>, ts: seq<(DisputeStatement, u32)>) {
    |vs| == |ts| && forall i :: 0 <= i < |vs| ==> IsTuple(vs[i], ts[i])
  }

  lemma TupleExactly(v: Value, t: (DisputeStatement, u32))
    ensures DecodeTuple(v) == Some(t) <==> IsTuple(v, t)
  {
    if v.Unnamed? && |v.vs| >= 3 {
      StatementExactly(v.vs[0], t.0);
      IndexExactly(v.vs[1], t.1);
    }
  }

  lemma {:induction false} TuplesExactly(vs: seq<Value>, ts: seq<(DisputeStatement, u32)>)
    ensures DecodeTuples(vs) == Some(ts) <==> AreTuples(vs, ts)
  {
    hide IsTuple, DecodeTuple;
    if vs != [] && ts != [] {
      TuplesExactly(Front(vs), Front(ts));
      TupleExactly(Last(vs), Last(ts));
      assert ts == Front(ts) + [Last(ts)];
      if AreTuples(Front(vs), Front(ts)) && IsTuple(Last(vs), Last(ts)) {
        assert AreTuples(vs, ts);
      }
      if AreTuples(vs, ts) {
        assert AreTuples(Front(vs), Front(ts));
      }
      if DecodeTuples(vs) == Some(ts) {
        assert DecodeTuples(Front(vs)).value == Front(ts);
      }
    }
  }

  /*** Dispute sets and the whole ***/

  ghost predicate IsSet(v: Value, s: DisputeStatementSet) {
    && (exists x :: HasField(v, "candidate_hash", x) && IsCandidateHash(x, s.candidateHash))
    && (exists x :: HasField(v, "session", x) && IsIndex(x, s.session))
    && (exists x :: HasField(v, "statements", x) && x.Unnamed? && AreTuples(x.vs, s.statements))
  }

  /** A dispute set, accepted and read exactly; anything else is refused. */
  lemma SetExactly(v: Value, s: DisputeStatementSet)
    ensures DecodeSet(v) == Some(s) <==> IsSet(v, s)
  {
    var h, n, ss := At(v, "candidate_hash"), At(v, "session"), At(v, "statements");
    FieldIs(v, "candidate_hash");
    FieldIs(v, "session");
    FieldIs(v, "statements");
    if h.Some? {
      CandidateHashExactly(h.value, s.candidateHash);
    }
    if n.Some? {
      IndexExactly(n.value, s.session);
    }
    if ss.Some? && ss.value.Unnamed? {
      TuplesExactly(ss.value.vs, s.statements);
    }
    hide At, HasField, IsCandidateHash, IsIndex, AreTuples, DecodeCandidateHash, DecodeU32, DecodeTuples;
  }

  lemma FieldIs(v: Value, name: string)
    ensures forall x :: HasField(v, name, x) <==> At(v, name) == Some(x)
  {
    forall x
      ensures HasField(v, name, x) <==> At(v, name) == Some(x)
    {
      FieldAt(v, name, x);
    }
  }

  ghost predicate IsPayload(v: Value, bits: seq<bool>) { exists x :: HasField(v, "payload", x) && IsBits(x, bits) }

  ghost predicate ArePayloads(vs: seq<Value>, ps: seq<seq<bool>>) {
    |vs| == |ps| && forall i :: 0 <= i < |vs| ==> IsPayload(vs[i], ps[i])
  }

  ghost predicate AreSets(vs: seq<Value>, ss: seq<DisputeStatementSet>) {
    |vs| == |ss| && forall i :: 0 <= i < |vs| ==> IsSet(vs[i], ss[i])
  }

  function PayloadOf(v: Value): Option<seq<bool>> {
    match At(v, "payload")
    case None => None
    case Some(p) => DecodeBitfield(p)
  }

  lemma PayloadExactly(v: Value, bits: seq<bool>)
    ensures PayloadOf(v) == Some(bits) <==> IsPayload(v, bits)
  {
    FieldIs(v, "payload");
    if At(v, "payload").Some? {
      BitsExactly(At(v, "payload").value, bits);
    }
    hide At, HasField, IsBits, DecodeBitfield;
  }

  lemma {:induction false} PayloadsExactly(vs: seq<Value>, ps: seq<seq<bool>>)
    ensures DecodePayloads(vs) == Some(ps) <==> ArePayloads(vs, ps)
  {
    if vs != [] && ps != [] {
      PayloadsExactly(vs[1..], ps[1..]);
      PayloadExactly(vs[0], ps[0]);
      PayloadsUnfold(vs);
      hide IsPayload, PayloadOf, DecodePayloads;
      assert ps == [ps[0]] + ps[1..];
      assert forall i :: 1 <= i < |vs| ==> vs[i] == vs[1..][i - 1];
      assert forall i :: 1 <= i < |ps| ==> ps[i] == ps[1..][i - 1];
      if ArePayloads(vs[1..], ps[1..]) && IsPayload(vs[0], ps[0]) {
        assert ArePayloads(vs, ps);
      }
      if ArePayloads(vs, ps) {
        assert ArePayloads(vs[1..], ps[1..]);
      }
      if DecodePayloads(vs) == Some(ps) {
        assert DecodePayloads(vs[1..]).value == ps[1..];
      }
    }
  }

  lemma PayloadsUnfold(vs: seq<Value>)
    requires vs != []
    ensures DecodePayloads(vs) ==
            match (PayloadOf(vs[0]), DecodePayloads(vs[1..]))
            case (Some(bits), Some(ps)) => Some([bits] + ps)
            case _ => None
  {
  }

  lemma {:induction false} SetsExactly(vs: seq<Value>, ss: seq<DisputeStatementSet>)
    ensures DecodeSets(vs) == Some(ss) <==> AreSets(vs, ss)
  {
    hide IsSet, DecodeSet;
    if vs != [] && ss != [] {
      SetsExactly(vs[1..], ss[1..]);
      SetExactly(vs[0], ss[0]);
      assert ss == [ss[0]] + ss[1..];
      assert forall i :: 1 <= i < |vs| ==> vs[i] == vs[1..][i - 1];
      assert forall i :: 1 <= i < |ss| ==> ss[i] == ss[1..][i - 1];
      if AreSets(vs[1..], ss[1..]) && IsSet(vs[0], ss[0]) {
        assert AreSets(vs, ss);
      }
      if AreSets(vs, ss) {
        assert AreSets(vs[1..], ss[1..]);
      }
      if DecodeSets(vs) == Some(ss) {
        assert DecodeSets(vs[1..]).value == ss[1..];
      }
    }
  }

  /** The argument of the call: by name, or as the first of unnamed ones. */
  ghost predicate IsArgument(raw: Value, x: Value) {
    match raw
    case Named(fields) => InFields(fields, "data", x)
    case Unnamed(vs) => vs != [] && x == vs[0]
    case _ => false
  }

  ghost predicate IsInherent(raw: Value, d: InherentData) {
    exists x :: IsArgument(raw, x) &&
      (exists bs :: HasField(x, "bitfields", bs) && bs.Unnamed? && ArePayloads(bs.vs, d.bitfields)) &&
      exists ds :: HasField(x, "disputes", ds) && ds.Unnamed? && AreSets(ds.vs, d.disputes)
  }

  lemma ArgumentExactly(raw: Value)
    ensures forall x :: IsArgument(raw, x) <==> CallData(raw) == Some(x)
  {
    forall x
      ensures IsArgument(raw, x) <==> CallData(raw) == Some(x)
    {
      if raw.Named? {
        FieldFound(raw.fields, "data", x);
      }
    }
  }

  /**
   The metadata-driven decoder, exactly: it returns an inherent just when the dynamic value stands for it, and
   refuses every value that stands for none.
   */
  lemma InherentExactly(raw: Value, d: InherentData)
    ensures DecodeInherentData(raw) == Some(d) <==> IsInherent(raw, d)
  {
    ArgumentExactly(raw);
    var data := CallData(raw);
    if data.Some? {
      var bs, ds := At(data.value, "bitfields"), At(data.value, "disputes");
      FieldIs(data.value, "bitfields");
      FieldIs(data.value, "disputes");
      if bs.Some? && bs.value.Unnamed? {
        PayloadsExactly(bs.value.vs, d.bitfields);
      }
      if ds.Some? && ds.value.Unnamed? {
        SetsExactly(ds.value.vs, d.disputes);
      }
    }
    hide At, HasField, IsArgument, CallData, ArePayloads, AreSets, DecodePayloads, DecodeSets;
  }
}

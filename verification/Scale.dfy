/**
 The SCALE codec (section A.2.2 of the Polkadot Protocol Specification), driven by the shape of the
 type as derived decoders are: one decoder, one encoder, and the three laws that every type inherits.
 */
module Scale {
  import opened Prelude

  /** The wire shapes; tuples and structs are nested pairs, an enum is a list of tagged cases. */
  datatype Shape =
    | Uint(width: nat)
    | Fixed(size: nat)
    | CompactU32
    | VecOf(elem: Shape)
    | Bits
    | Unit
    | Pair(fst: Shape, snd: Shape)
    | NoCase
    | Case(tag: u8, payload: Shape, others: Shape)

  datatype Val =
    | Num(n: nat)
    | Raw(b: Bytes)
    | List(vs: seq<Val>)
    | BitList(bits: seq<bool>)
    | Nothing
    | Both(a: Val, b2: Val)
    | Tagged(t: u8, v: Val)

  function OptionOf(s: Shape): Shape { Case(0, Unit, Case(1, s, NoCase)) }

  datatype Parsed<+T> = Fail | Got(value: T, rest: Bytes)

  /** A bit vector longer than this does not decode. */
  const MAX_BITS: nat := 0x1fff_ffff

  /*** Little-endian numbers ***/

  function LeNat(b: Bytes): nat { if b == [] then 0 else b[0] + 256 * LeNat(b[1..]) }

  function LeBytes(n: nat, w: nat): (b: Bytes)
    ensures |b| == w
  {
    if w == 0 then [] else [n % 256] + LeBytes(n / 256, w - 1)
  }

  lemma {:induction false} LeRoundTrip(n: nat, w: nat)
    requires n < Pow256(w)
    ensures LeNat(LeBytes(n, w)) == n
  {
    if w > 0 {
      LeRoundTrip(n / 256, w - 1);
      assert LeBytes(n, w)[1..] == LeBytes(n / 256, w - 1);
    }
  }

  lemma {:induction false} LeBack(b: Bytes)
    ensures LeNat(b) < Pow256(|b|)
    ensures LeBytes(LeNat(b), |b|) == b
  {
    if b != [] {
      LeBack(b[1..]);
      assert LeNat(b) % 256 == b[0] && LeNat(b) / 256 == LeNat(b[1..]);
    }
  }

  lemma DivDiv(n: nat, m: nat)
    requires m > 0
    ensures n / (256 * m) == (n / 256) / m
  {
    var q := n / 256;
    var k := q / m;
    assert n == 256 * q + n % 256 && q == m * k + q % m;
    assert n == (256 * m) * k + (256 * (q % m) + n % 256);
    DivUnique(n, 256 * m, k, 256 * (q % m) + n % 256);
  }

  lemma DivUnique(n: nat, m: nat, k: nat, r: nat)
    requires m > 0 && n == m * k + r && r < m
    ensures n / m == k
  {
    var q := n / m;
    assert n == m * q + n % m;
    if q < k {
      AtLeastOnce(m, k - q);
      Distributes(m, k, q);
    } else if k < q {
      AtLeastOnce(m, q - k);
      Distributes(m, q, k);
    }
  }

  lemma Distributes(m: nat, a: nat, b: nat)
    ensures m * (a - b) == m * a - m * b
  {
  }

  lemma {:induction false} AtLeastOnce(m: nat, x: nat)
    requires x > 0
    ensures m * x >= m
  {
    if x > 1 {
      AtLeastOnce(m, x - 1);
      Distributes(m, x, 1);
    }
  }

  /** Byte `k` carries the weight 256^k: the least significant comes first. */
  lemma {:induction false} LittleEndian(n: nat, w: nat, k: nat)
    requires k < w
    ensures Pow256(k) > 0 && LeBytes(n, w)[k] == n / Pow256(k) % 256
  {
    Pow256Positive(k);
    if k > 0 {
      LittleEndian(n / 256, w - 1, k - 1);
      DivDiv(n, Pow256(k - 1));
    }
  }

  lemma {:induction false} Pow256Positive(k: nat)
    ensures Pow256(k) > 0
  {
    if k > 0 {
      Pow256Positive(k - 1);
    }
  }

  /*** Fixed windows ***/

  function Take(size: nat, b: Bytes): Parsed<Bytes> {
    if |b| < size then Fail else Got(b[..size], b[size..])
  }

  function TakeUint(width: nat, b: Bytes): Parsed<nat> {
    if |b| < width then Fail else Got(LeNat(b[..width]), b[width..])
  }

  /*** Compact numbers (section A.2.2.1), as a u32: every number has one encoding ***/

  function CompactBytes(n: u32): Bytes {
    if n < 64 then [4 * n]
    else if n < 0x4000 then LeBytes(4 * n + 1, 2)
    else if n < 0x4000_0000 then LeBytes(4 * n + 2, 4)
    else [3] + LeBytes(n, 4)
  }

  function DecodeCompact(b: Bytes): (r: Parsed<nat>)
    ensures r.Got? ==> r.value < TWO_32
  {
    if b == [] then Fail
    else if b[0] % 4 == 0 then Got(b[0] / 4, b[1..])
    else if b[0] % 4 == 1 then Above(TakeUint(2, b), 64)
    else if b[0] % 4 == 2 then Above(TakeUint(4, b), 0x4000)
    else if b[0] != 3 then Fail
    else
      match TakeUint(4, b[1..])
      case Fail => Fail
      case Got(n, rest) =>
        LeBack(b[1..][..4]);
        Pow256Values();
        if n < 0x4000_0000 then Fail else Got(n, rest)
  }

  /** The number behind the two mode bits, refused when a shorter mode would do. */
  function Above(r: Parsed<nat>, least: nat): Parsed<nat> {
    match r
    case Fail => Fail
    case Got(n, rest) => if n / 4 < least || n / 4 >= TWO_32 then Fail else Got(n / 4, rest)
  }

  lemma Pow256Values()
    ensures Pow256(1) == 0x100 && Pow256(2) == 0x1_0000 && Pow256(4) == TWO_32 && Pow256(8) == TWO_32 * TWO_32
  {
    assert Pow256(3) == 0x100_0000;
    assert Pow256(5) == 0x100 * TWO_32 && Pow256(6) == 0x1_0000 * TWO_32 && Pow256(7) == 0x100_0000 * TWO_32;
  }

  lemma UintRoundTrip(n: nat, w: nat, rest: Bytes)
    requires n < Pow256(w)
    ensures TakeUint(w, LeBytes(n, w) + rest) == Got(n, rest)
  {
    var b := LeBytes(n, w) + rest;
    assert b[..w] == LeBytes(n, w) && b[w..] == rest;
    LeRoundTrip(n, w);
  }

  lemma UintCanonical(w: nat, b: Bytes)
    requires TakeUint(w, b).Got?
    ensures TakeUint(w, b).value < Pow256(w)
    ensures b == LeBytes(TakeUint(w, b).value, w) + TakeUint(w, b).rest
  {
    LeBack(b[..w]);
  }

  /** The mode bits are the two low bits of the first byte. */
  lemma ModeRoundTrip(n: nat, mode: nat, w: nat, rest: Bytes)
    requires 0 < w && mode < 4 && 4 * n + mode < Pow256(w)
    ensures var b := LeBytes(4 * n + mode, w) + rest;
            b[0] % 4 == mode && TakeUint(w, b) == Got(4 * n + mode, rest) && (4 * n + mode) / 4 == n
  {
    var m := 4 * n + mode;
    UintRoundTrip(m, w, rest);
    assert m % 256 == m - 256 * (m / 256);
  }

  lemma CompactShort(n: u32, rest: Bytes)
    requires 64 <= n < 0x4000
    ensures DecodeCompact(CompactBytes(n) + rest) == Got(n, rest)
  {
    assert 4 * n + 1 < Pow256(2) by { Pow256Values(); }
    ModeRoundTrip(n, 1, 2, rest);
  }

  lemma CompactMiddle(n: u32, rest: Bytes)
    requires 0x4000 <= n < 0x4000_0000
    ensures DecodeCompact(CompactBytes(n) + rest) == Got(n, rest)
  {
    assert 4 * n + 2 < Pow256(4) by { Pow256Values(); }
    ModeRoundTrip(n, 2, 4, rest);
  }

  lemma CompactBig(n: u32, rest: Bytes)
    requires 0x4000_0000 <= n
    ensures DecodeCompact(CompactBytes(n) + rest) == Got(n, rest)
  {
    hide LeBytes, LeNat;
    var b := CompactBytes(n) + rest;
    assert n < Pow256(4) by { Pow256Values(); }
    UintRoundTrip(n, 4, rest);
    assert b[1..] == LeBytes(n, 4) + rest;
  }

  lemma CompactRoundTrip(n: u32, rest: Bytes)
    ensures DecodeCompact(CompactBytes(n) + rest) == Got(n, rest)
  {
    if n < 64 {
      assert (CompactBytes(n) + rest)[1..] == rest;
    } else if n < 0x4000 {
      CompactShort(n, rest);
    } else if n < 0x4000_0000 {
      CompactMiddle(n, rest);
    } else {
      CompactBig(n, rest);
    }
  }

  /**
   The two low bits of the first byte are the mode: one, two or four bytes holding `4 * n + mode`, or a marker and
   four bytes holding `n`; and the mode is the first that can hold the number.
   */
  lemma CompactModes(n: u32)
    ensures var b := CompactBytes(n);
            var mode := if n < 0x40 then 0 else if n < 0x4000 then 1 else if n < 0x4000_0000 then 2 else 3;
            && |b| == [1, 2, 4, 5][mode] && b[0] % 4 == mode
            && (if mode < 3 then LeNat(b) == 4 * n + mode else b[0] == 3 && LeNat(b[1..]) == n)
  {
    Pow256Values();
    if n < 0x40 {
      assert LeNat([4 * n]) == 4 * n + 256 * LeNat([]);
    } else if n < 0x4000 {
      LeRoundTrip(4 * n + 1, 2);
      ModeRoundTrip(n, 1, 2, []);
    } else if n < 0x4000_0000 {
      LeRoundTrip(4 * n + 2, 4);
      ModeRoundTrip(n, 2, 4, []);
    } else {
      LeRoundTrip(n, 4);
    }
  }

  lemma LowByte(b: Bytes, w: nat)
    requires 0 < w <= |b|
    ensures LeNat(b[..w]) % 256 == b[0]
  {
  }

  lemma CompactCanonical(b: Bytes)
    requires DecodeCompact(b).Got?
    ensures b == CompactBytes(DecodeCompact(b).value) + DecodeCompact(b).rest
  {
    Pow256Values();
    if b[0] % 4 == 1 {
      TwoByteCanonical(b);
    } else if b[0] % 4 == 2 {
      FourByteCanonical(b);
    } else if b[0] == 3 {
      UintCanonical(4, b[1..]);
      assert b == [3] + b[1..];
    }
  }

  lemma TwoByteCanonical(b: Bytes)
    requires b != [] && b[0] % 4 == 1 && DecodeCompact(b).Got?
    ensures b == CompactBytes(DecodeCompact(b).value) + DecodeCompact(b).rest
  {
    Pow256Values();
    UintCanonical(2, b);
    LowByte(b, 2);
    var m := TakeUint(2, b).value;
    assert m % 4 == 1 && m == 4 * (m / 4) + 1;
  }

  lemma FourByteCanonical(b: Bytes)
    requires b != [] && b[0] % 4 == 2 && DecodeCompact(b).Got?
    ensures b == CompactBytes(DecodeCompact(b).value) + DecodeCompact(b).rest
  {
    Pow256Values();
    UintCanonical(4, b);
    LowByte(b, 4);
    var m := TakeUint(4, b).value;
    assert m % 4 == 2 && m == 4 * (m / 4) + 2;
  }

  lemma CompactExtends(b: Bytes, x: Bytes)
    requires DecodeCompact(b).Got?
    ensures DecodeCompact(b + x) == Got(DecodeCompact(b).value, DecodeCompact(b).rest + x)
  {
    CompactCanonical(b);
    var r := DecodeCompact(b);
    CompactRoundTrip(r.value, r.rest + x);
    assert b + x == CompactBytes(r.value) + (r.rest + x);
  }

  /*** Packed bits, least significant first ***/

  function ByteOf(bits: seq<bool>): (x: nat)
    requires |bits| <= 8
    ensures x < 256
  {
    ByteBound(bits);
    BitsNat(bits)
  }

  function BitsNat(bits: seq<bool>): nat {
    if bits == [] then 0 else (if bits[0] then 1 else 0) + 2 * BitsNat(bits[1..])
  }

  function Pow2(n: nat): nat { if n == 0 then 1 else 2 * Pow2(n - 1) }

  lemma {:induction false} BitsBelow(bits: seq<bool>)
    ensures BitsNat(bits) < Pow2(|bits|)
  {
    if bits != [] {
      BitsBelow(bits[1..]);
    }
  }

  lemma {:induction false} Pow2Monotone(a: nat, b: nat)
    requires a <= b
    ensures Pow2(a) <= Pow2(b)
  {
    if a < b {
      Pow2Monotone(a, b - 1);
    }
  }

  lemma ByteBound(bits: seq<bool>)
    requires |bits| <= 8
    ensures BitsNat(bits) < 256
  {
    BitsBelow(bits);
    Pow2Monotone(|bits|, 8);
    assert Pow2(4) == 16;
    assert Pow2(8) == 256;
  }

  predicate BitAt(x: nat, i: nat) { if i == 0 then x % 2 == 1 else BitAt(x / 2, i - 1) }

  lemma {:induction false} BitAtBits(bits: seq<bool>, i: nat)
    requires i < |bits|
    ensures BitAt(BitsNat(bits), i) == bits[i]
  {
    var rest := bits[1..];
    assert BitsNat(bits) % 2 == (if bits[0] then 1 else 0) && BitsNat(bits) / 2 == BitsNat(rest);
    if i > 0 {
      assert rest[i - 1] == bits[i];
      hide BitsNat;
      BitAtBits(rest, i - 1);
    }
  }

  lemma {:induction false} Pow2Positive(k: nat)
    ensures Pow2(k) > 0
  {
    if k > 0 {
      Pow2Positive(k - 1);
    }
  }

  /** Bit `i` has the weight 2^i. */
  lemma {:induction false} BitWeight(x: nat, i: nat)
    ensures Pow2(i) > 0 && (BitAt(x, i) <==> x / Pow2(i) % 2 == 1)
  {
    Pow2Positive(i);
    if i > 0 {
      BitWeight(x / 2, i - 1);
      HalfDiv(x, Pow2(i - 1));
    }
  }

  lemma HalfDiv(n: nat, m: nat)
    requires m > 0
    ensures n / (2 * m) == n / 2 / m
  {
    var q := n / 2;
    var k := q / m;
    assert n == 2 * q + n % 2 && q == m * k + q % m;
    assert n == (2 * m) * k + (2 * (q % m) + n % 2);
    DivUnique(n, 2 * m, k, 2 * (q % m) + n % 2);
  }

  function BytesFor(count: nat): nat { (count + 7) / 8 }

  function Pack(bits: seq<bool>): Bytes {
    seq(BytesFor(|bits|), j requires 0 <= j < BytesFor(|bits|) =>
      ByteOf(bits[8 * j..if 8 * j + 8 <= |bits| then 8 * j + 8 else |bits|]))
  }

  function Unpack(count: nat, b: Bytes): seq<bool>
    requires |b| == BytesFor(count)
  {
    seq(count, i requires 0 <= i < count => BitAt(b[i / 8], i % 8))
  }

  lemma SliceAt(bits: seq<bool>, lo: nat, hi: nat, r: nat)
    requires lo <= hi <= |bits| && r < hi - lo
    ensures bits[lo..hi][r] == bits[lo + r]
  {
  }

  lemma PackRoundTrip(bits: seq<bool>)
    ensures Unpack(|bits|, Pack(bits)) == bits
  {
    forall i | 0 <= i < |bits|
      ensures BitAt(Pack(bits)[i / 8], i % 8) == bits[i]
    {
      hide ByteOf, BitAt;
      var j, r := i / 8, i % 8;
      assert i == 8 * j + r;
      var end := if 8 * j + 8 <= |bits| then 8 * j + 8 else |bits|;
      var window := bits[8 * j..end];
      SliceAt(bits, 8 * j, end, r);
      assert Pack(bits)[j] == ByteOf(window);
      BitAtBits(window, i % 8);
    }
  }

  /** A bit of the list is found in its byte, the first of eight as the least significant. */
  lemma PackedBit(bits: seq<bool>, i: nat)
    requires i < |bits|
    ensures Pow2(i % 8) > 0 && (bits[i] <==> Pack(bits)[i / 8] / Pow2(i % 8) % 2 == 1)
  {
    PackRoundTrip(bits);
    hide ByteOf, BitAt;
    assert Unpack(|bits|, Pack(bits))[i] == BitAt(Pack(bits)[i / 8], i % 8);
    BitWeight(Pack(bits)[i / 8], i % 8);
  }

  function DecodeBits(b: Bytes): Parsed<seq<bool>> {
    match DecodeCompact(b)
    case Fail => Fail
    case Got(count, rest) =>
      if count > MAX_BITS || |rest| < BytesFor(count) then Fail
      else Got(Unpack(count, rest[..BytesFor(count)]), rest[BytesFor(count)..])
  }

  lemma BitsRoundTrip(bits: seq<bool>, rest: Bytes)
    requires |bits| <= MAX_BITS
    ensures DecodeBits(CompactBytes(|bits|) + Pack(bits) + rest) == Got(bits, rest)
  {
    var tail := Pack(bits) + rest;
    assert CompactBytes(|bits|) + Pack(bits) + rest == CompactBytes(|bits|) + tail;
    CompactRoundTrip(|bits|, tail);
    PackRoundTrip(bits);
    assert tail[..BytesFor(|bits|)] == Pack(bits) && tail[BytesFor(|bits|)..] == rest;
  }

  lemma BitsExtends(b: Bytes, x: Bytes)
    requires DecodeBits(b).Got?
    ensures DecodeBits(b + x) == Got(DecodeBits(b).value, DecodeBits(b).rest + x)
  {
    CompactExtends(b, x);
    var rest := DecodeCompact(b).rest;
    var k := BytesFor(DecodeCompact(b).value);
    assert (rest + x)[..k] == rest[..k] && (rest + x)[k..] == rest[k..] + x;
  }

  /*** The decoder ***/

  function Decode(s: Shape, b: Bytes): Parsed<Val>
    decreases s, 0
  {
    match s
    case Uint(w) => (match TakeUint(w, b) case Fail => Fail case Got(n, rest) => Got(Num(n), rest))
    case Fixed(size) => (match Take(size, b) case Fail => Fail case Got(raw, rest) => Got(Raw(raw), rest))
    case CompactU32 => (match DecodeCompact(b) case Fail => Fail case Got(n, rest) => Got(Num(n), rest))
    case VecOf(elem) =>
      (match DecodeCompact(b)
       case Fail => Fail
       case Got(count, rest) =>
         match DecodeMany(elem, count, rest)
         case Fail => Fail
         case Got(vs, rest') => Got(List(vs), rest'))
    case Bits => (match DecodeBits(b) case Fail => Fail case Got(bits, rest) => Got(BitList(bits), rest))
    case Unit => Got(Nothing, b)
    case Pair(fst, snd) =>
      (match Decode(fst, b)
       case Fail => Fail
       case Got(v, rest) =>
         match Decode(snd, rest)
         case Fail => Fail
         case Got(w, rest') => Got(Both(v, w), rest'))
    case NoCase => Fail
    case Case(tag, payload, others) =>
      if b == [] then Fail
      else if b[0] == tag then
        (match Decode(payload, b[1..]) case Fail => Fail case Got(v, rest) => Got(Tagged(tag, v), rest))
      else Decode(others, b)
  }

  function DecodeMany(elem: Shape, count: nat, b: Bytes): Parsed<seq<Val>>
    decreases elem, count + 1
  {
    if count == 0 then Got([], b)
    else
      match Decode(elem, b)
      case Fail => Fail
      case Got(v, rest) =>
        match DecodeMany(elem, count - 1, rest)
        case Fail => Fail
        case Got(vs, rest') => Got([v] + vs, rest')
  }

  /** `decode_all`: nothing may follow. */
  function DecodeAll(s: Shape, b: Bytes): Option<Val> {
    match Decode(s, b)
    case Fail => None
    case Got(v, rest) => if rest == [] then Some(v) else None
  }

  /*** The encoder ***/

  predicate Fits(s: Shape, v: Val)
    decreases s, 0
  {
    match s
    case Uint(w) => v.Num? && v.n < Pow256(w)
    case Fixed(size) => v.Raw? && |v.b| == size
    case CompactU32 => v.Num? && v.n < TWO_32
    case VecOf(elem) => v.List? && |v.vs| < TWO_32 && forall i :: 0 <= i < |v.vs| ==> Fits(elem, v.vs[i])
    case Bits => v.BitList? && |v.bits| <= MAX_BITS
    case Unit => v.Nothing?
    case Pair(fst, snd) => v.Both? && Fits(fst, v.a) && Fits(snd, v.b2)
    case NoCase => false
    case Case(tag, payload, others) => v.Tagged? && if v.t == tag then Fits(payload, v.v) else Fits(others, v)
  }

  function Encode(s: Shape, v: Val): Bytes
    requires Fits(s, v)
    decreases s, 0
  {
    match s
    case Uint(w) => LeBytes(v.n, w)
    case Fixed(_) => v.b
    case CompactU32 => CompactBytes(v.n)
    case VecOf(elem) => CompactBytes(|v.vs|) + EncodeMany(elem, v.vs)
    case Bits => CompactBytes(|v.bits|) + Pack(v.bits)
    case Unit => []
    case Pair(fst, snd) => Encode(fst, v.a) + Encode(snd, v.b2)
    case Case(tag, payload, others) => if v.t == tag then [tag] + Encode(payload, v.v) else Encode(others, v)
  }

  function EncodeMany(elem: Shape, vs: seq<Val>): Bytes
    requires forall i :: 0 <= i < |vs| ==> Fits(elem, vs[i])
    decreases elem, |vs| + 1
  {
    if vs == [] then [] else Encode(elem, vs[0]) + EncodeMany(elem, vs[1..])
  }

  /*** Law 1: decoding inverts encoding, whatever follows ***/

  lemma {:induction false} RoundTrip(s: Shape, v: Val, rest: Bytes)
    requires Fits(s, v)
    ensures Decode(s, Encode(s, v) + rest) == Got(v, rest)
    decreases s, 0
  {
    var b := Encode(s, v) + rest;
    match s
    case Uint(w) =>
      LeRoundTrip(v.n, w);
      assert b[..w] == LeBytes(v.n, w) && b[w..] == rest;
    case Fixed(size) => assert b[..size] == v.b && b[size..] == rest;
    case CompactU32 => CompactRoundTrip(v.n, rest);
    case VecOf(elem) =>
      assert b == CompactBytes(|v.vs|) + (EncodeMany(elem, v.vs) + rest);
      CompactRoundTrip(|v.vs|, EncodeMany(elem, v.vs) + rest);
      RoundTripMany(elem, v.vs, rest);
    case Bits => BitsRoundTrip(v.bits, rest);
    case Unit => assert b == rest;
    case Pair(fst, snd) =>
      assert b == Encode(fst, v.a) + (Encode(snd, v.b2) + rest);
      RoundTrip(fst, v.a, Encode(snd, v.b2) + rest);
      RoundTrip(snd, v.b2, rest);
    case Case(tag, payload, others) =>
      if v.t == tag {
        assert b[1..] == Encode(payload, v.v) + rest;
        RoundTrip(payload, v.v, rest);
      } else {
        StartsWithTag(others, v);
        RoundTrip(others, v, rest);
      }
  }

  lemma {:induction false} RoundTripMany(elem: Shape, vs: seq<Val>, rest: Bytes)
    requires forall i :: 0 <= i < |vs| ==> Fits(elem, vs[i])
    ensures DecodeMany(elem, |vs|, EncodeMany(elem, vs) + rest) == Got(vs, rest)
    decreases elem, |vs| + 1
  {
    hide Encode, Decode, Fits;
    var b := EncodeMany(elem, vs) + rest;
    if vs == [] {
      assert b == rest;
    } else {
      assert b == Encode(elem, vs[0]) + (EncodeMany(elem, vs[1..]) + rest);
      RoundTrip(elem, vs[0], EncodeMany(elem, vs[1..]) + rest);
      RoundTripMany(elem, vs[1..], rest);
      assert vs == [vs[0]] + vs[1..];
    }
  }

  /** The encoding of an enum value starts with its tag. */
  lemma {:induction false} StartsWithTag(s: Shape, v: Val)
    requires Fits(s, v) && v.Tagged?
    ensures Encode(s, v) != [] && Encode(s, v)[0] == v.t
  {
    if s.Case? && v.t != s.tag {
      StartsWithTag(s.others, v);
    }
  }

  /*** Law 2: decoding is local; bytes after the ones consumed are handed on untouched ***/

  lemma {:induction false} Extension(s: Shape, b: Bytes, x: Bytes)
    requires Decode(s, b).Got?
    ensures Decode(s, b + x) == Got(Decode(s, b).value, Decode(s, b).rest + x)
    decreases s, 0
  {
    match s
    case Uint(w) => assert (b + x)[..w] == b[..w] && (b + x)[w..] == b[w..] + x;
    case Fixed(size) => assert (b + x)[..size] == b[..size] && (b + x)[size..] == b[size..] + x;
    case CompactU32 => CompactExtends(b, x);
    case VecOf(elem) =>
      CompactExtends(b, x);
      ExtensionMany(elem, DecodeCompact(b).value, DecodeCompact(b).rest, x);
    case Bits => BitsExtends(b, x);
    case Unit =>
    case Pair(fst, snd) =>
      Extension(fst, b, x);
      Extension(snd, Decode(fst, b).rest, x);
    case Case(tag, payload, others) =>
      assert (b + x)[1..] == b[1..] + x;
      if b[0] == tag {
        Extension(payload, b[1..], x);
      } else {
        Extension(others, b, x);
      }
  }

  lemma {:induction false} ExtensionMany(elem: Shape, count: nat, b: Bytes, x: Bytes)
    requires DecodeMany(elem, count, b).Got?
    ensures DecodeMany(elem, count, b + x) ==
            Got(DecodeMany(elem, count, b).value, DecodeMany(elem, count, b).rest + x)
    decreases elem, count + 1
  {
    if count > 0 {
      Extension(elem, b, x);
      ExtensionMany(elem, count - 1, Decode(elem, b).rest, x);
    }
  }

  /** Exact consumption: what `decode_all` accepts, it rejects with anything cut off or appended. */
  lemma ExactConsumption(s: Shape, b: Bytes, x: Bytes)
    requires x != []
    ensures DecodeAll(s, b).Some? ==> DecodeAll(s, b + x).None?
    ensures DecodeAll(s, b + x).Some? ==> DecodeAll(s, b).None?
  {
    if Decode(s, b).Got? {
      Extension(s, b, x);
    }
  }

  /*** Law 3: what was decoded fits its shape, and without bit vectors its encoding is the input itself ***/

  predicate NoBits(s: Shape) {
    match s
    case VecOf(elem) => NoBits(elem)
    case Bits => false
    case Pair(fst, snd) => NoBits(fst) && NoBits(snd)
    case Case(_, payload, others) => NoBits(payload) && NoBits(others)
    case _ => true
  }

  /** What follows a case is again a case, or the end of the enum. */
  predicate WellShaped(s: Shape) {
    match s
    case VecOf(elem) => WellShaped(elem)
    case Pair(fst, snd) => WellShaped(fst) && WellShaped(snd)
    case Case(_, payload, others) => WellShaped(payload) && (others.Case? || others.NoCase?) && WellShaped(others)
    case _ => true
  }

  lemma {:induction false} DecodedFits(s: Shape, b: Bytes)
    requires WellShaped(s) && Decode(s, b).Got?
    ensures Fits(s, Decode(s, b).value)
    ensures s.Case? ==> Decode(s, b).value.Tagged? && b != [] && Decode(s, b).value.t == b[0]
    decreases s, 0
  {
    match s
    case Uint(w) => UintCanonical(w, b);
    case VecOf(elem) => DecodedManyFit(elem, DecodeCompact(b).value, DecodeCompact(b).rest);
    case Pair(fst, snd) =>
      DecodedFits(fst, b);
      DecodedFits(snd, Decode(fst, b).rest);
    case Case(tag, payload, others) =>
      if b[0] == tag {
        DecodedFits(payload, b[1..]);
      } else {
        DecodedFits(others, b);
      }
    case _ =>
  }

  lemma {:induction false} DecodedManyFit(elem: Shape, count: nat, b: Bytes)
    requires WellShaped(elem) && DecodeMany(elem, count, b).Got?
    ensures |DecodeMany(elem, count, b).value| == count
    ensures forall i :: 0 <= i < count ==> Fits(elem, DecodeMany(elem, count, b).value[i])
    decreases elem, count + 1
  {
    if count > 0 {
      DecodedFits(elem, b);
      DecodedManyFit(elem, count - 1, Decode(elem, b).rest);
    }
  }

  /** Encoding inverts decoding: a shape without bit vectors has exactly one encoding per value. */
  lemma {:induction false} Canonical(s: Shape, b: Bytes)
    requires WellShaped(s) && NoBits(s) && Decode(s, b).Got?
    ensures Fits(s, Decode(s, b).value)
    ensures b == Encode(s, Decode(s, b).value) + Decode(s, b).rest
    decreases s, 0
  {
    hide EncodeMany, DecodeMany, LeNat, LeBytes, CompactBytes, Pack, DecodeCompact, DecodeBits, TakeUint;
    DecodedFits(s, b);
    var v, rest := Decode(s, b).value, Decode(s, b).rest;
    match s
    case Uint(w) => UintCanonical(w, b);
    case CompactU32 => CompactCanonical(b);
    case VecOf(elem) =>
      CompactCanonical(b);
      CanonicalMany(elem, DecodeCompact(b).value, DecodeCompact(b).rest);
      DecodedManyFit(elem, DecodeCompact(b).value, DecodeCompact(b).rest);
      assert b == CompactBytes(|v.vs|) + (EncodeMany(elem, v.vs) + rest);
    case Pair(fst, snd) =>
      Canonical(fst, b);
      Canonical(snd, Decode(fst, b).rest);
      assert b == Encode(fst, v.a) + (Encode(snd, v.b2) + rest);
    case Case(tag, payload, others) =>
      if b[0] == tag {
        Canonical(payload, b[1..]);
        assert b == [tag] + b[1..];
      } else {
        Canonical(others, b);
      }
    case _ =>
  }

  lemma {:induction false} CanonicalMany(elem: Shape, count: nat, b: Bytes)
    requires WellShaped(elem) && NoBits(elem) && DecodeMany(elem, count, b).Got?
    ensures var vs := DecodeMany(elem, count, b).value;
            && (forall i :: 0 <= i < |vs| ==> Fits(elem, vs[i]))
            && b == EncodeMany(elem, vs) + DecodeMany(elem, count, b).rest
    decreases elem, count + 1
  {
    hide Encode, Decode, Fits;
    DecodedManyFit(elem, count, b);
    if count > 0 {
      var first := Decode(elem, b);
      var vs := DecodeMany(elem, count, b).value;
      var rest := DecodeMany(elem, count, b).rest;
      Canonical(elem, b);
      CanonicalMany(elem, count - 1, first.rest);
      assert vs[1..] == DecodeMany(elem, count - 1, first.rest).value;
      assert b == Encode(elem, vs[0]) + (EncodeMany(elem, vs[1..]) + rest);
    }
  }
}

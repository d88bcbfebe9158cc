/** Decoding database keys with a parsed format. */
module KvdbKeys {
  import opened Prelude
  import opened KvdbFormat
  import Scale

  datatype Field =
    | KnownField(s: string)
    | IntField(i: int)
    | TimeField(t: nat)
    | HashField(hex: string)
    | TextField(s: string)

  /*** UTF-8, the encoding of literals and texts ***/

  function Utf8Char(c: char): (b: Bytes)
    ensures b != []
  {
    var n := c as int;
    if n < 0x80 then [n]
    else if n < 0x800 then [0xC0 + n / 64, 0x80 + n % 64]
    else if n < 0x1_0000 then [0xE0 + n / 4096, 0x80 + n / 64 % 64, 0x80 + n % 64]
    else [0xF0 + n / 262144, 0x80 + n / 4096 % 64, 0x80 + n / 64 % 64, 0x80 + n % 64]
  }

  /** One byte below 0x80, or a lead byte that tells how many continuation bytes (0x80 to 0xBF) follow. */
  lemma Utf8Shape(c: char)
    ensures var n, b := c as int, Utf8Char(c);
            && |b| == (if n < 0x80 then 1 else if n < 0x800 then 2 else if n < 0x1_0000 then 3 else 4)
            && (forall i :: 1 <= i < |b| ==> 0x80 <= b[i] < 0xC0)
            && (match |b| case 1 => b[0] < 0x80 case 2 => 0xC0 <= b[0] < 0xE0 case 3 => 0xE0 <= b[0] < 0xF0
                case _ => 0xF0 <= b[0] < 0xF8)
  {
  }

  function Utf8(s: string): Bytes { if s == "" then [] else Utf8Char(s[0]) + Utf8(s[1..]) }

  lemma CharInjective(c: char, d: char, x: Bytes, y: Bytes)
    requires Utf8Char(c) + x == Utf8Char(d) + y
    ensures c == d && x == y
  {
    var b := Utf8Char(c) + x;
    CharFromBytes(c, x);
    CharFromBytes(d, y);
    assert b[|Utf8Char(c)|..] == x && b[|Utf8Char(d)|..] == y;
  }

  /** The first byte tells how many bytes a character takes, and those bytes tell the character. */
  function FirstChar(b: Bytes): int
    requires b != []
  {
    var n: int := b[0];
    if n < 0x80 then n
    else if n < 0xE0 then (if |b| < 2 then -1 else (n - 0xC0) * 64 + Low(b[1]))
    else if n < 0xF0 then (if |b| < 3 then -1 else (n - 0xE0) * 4096 + Low(b[1]) * 64 + Low(b[2]))
    else if |b| < 4 then -1
    else (n - 0xF0) * 262144 + Low(b[1]) * 4096 + Low(b[2]) * 64 + Low(b[3])
  }

  function Low(b: u8): int { (b as int) - 0x80 }

  lemma CharFromBytes(c: char, x: Bytes)
    ensures FirstChar(Utf8Char(c) + x) == c as int
  {
    var n := c as int;
    assert n == n / 64 * 64 + n % 64;
    assert n / 64 == n / 4096 * 64 + n / 64 % 64;
    assert n / 4096 == n / 262144 * 64 + n / 4096 % 64;
  }

  lemma {:induction false} Utf8Injective(s: string, t: string)
    requires Utf8(s) == Utf8(t)
    ensures s == t
  {
    if s != "" && t != "" {
      CharInjective(s[0], t[0], Utf8(s[1..]), Utf8(t[1..]));
      Utf8Injective(s[1..], t[1..]);
      assert s == [s[0]] + s[1..] && t == [t[0]] + t[1..];
    }
  }

  /*** The lossy decoder of the standard library is a parameter ***/

  const REPLACEMENT: char := '\U{FFFD}'

  /** Valid UTF-8 decodes to its text; invalid bytes leave a replacement character in the result. */
  ghost predicate ExactOnUtf8(lossy: Bytes -> string) {
    && (forall s: string :: lossy(Utf8(s)) == s)
    && (forall b: Bytes :: REPLACEMENT !in lossy(b) ==> Utf8(lossy(b)) == b)
  }

  ghost function ReferenceDecoder(b: Bytes): string {
    if exists s :: Utf8(s) == b then (var s :| Utf8(s) == b; s) else [REPLACEMENT]
  }

  /** There is such a decoder, so the theorems below are about something. */
  lemma DecoderExists()
    ensures ExactOnUtf8(ReferenceDecoder)
  {
    forall s: string
      ensures ReferenceDecoder(Utf8(s)) == s
    {
      Utf8Injective(ReferenceDecoder(Utf8(s)), s);
    }
  }

  function ConsumeSize(e: Element): nat {
    match e
    case Known(p) => |Utf8(p)|
    case Int32 => 4
    case Timestamp => 8
    case Hash => 32
    case Text(n) => n
  }

  function TotalSize(es: seq<Element>): nat { if es == [] then 0 else ConsumeSize(es[0]) + TotalSize(es[1..]) }

  /*** Big-endian numbers and hex ***/

  function BeNat(b: Bytes): nat { if b == [] then 0 else 256 * BeNat(b[..|b| - 1]) + b[|b| - 1] }

  function BeBytes(n: nat, w: nat): (b: Bytes)
    ensures |b| == w
  {
    if w == 0 then [] else BeBytes(n / 256, w - 1) + [n % 256]
  }

  lemma {:induction false} BeRoundTrip(n: nat, w: nat)
    requires n < Pow256(w)
    ensures BeNat(BeBytes(n, w)) == n
  {
    if w > 0 {
      BeRoundTrip(n / 256, w - 1);
      assert BeBytes(n, w)[..w - 1] == BeBytes(n / 256, w - 1);
    }
  }

  lemma {:induction false} BeBack(b: Bytes)
    ensures BeNat(b) < Pow256(|b|) && BeBytes(BeNat(b), |b|) == b
  {
    if b != [] {
      BeBack(b[..|b| - 1]);
      assert BeNat(b) % 256 == b[|b| - 1] && BeNat(b) / 256 == BeNat(b[..|b| - 1]);
    }
  }

  /** Byte `k` carries the weight of the bytes after it: the most significant comes first. */
  lemma {:induction false} BigEndian(n: nat, w: nat, k: nat)
    requires k < w
    ensures BeBytes(n, w)[k] == Scale.LeBytes(n, w)[w - 1 - k]
  {
    if k < w - 1 {
      BigEndian(n / 256, w - 1, k);
    }
  }

  /** Two's complement of a 32-bit word. */
  function ToSigned(n: nat): int { if n < 0x8000_0000 then n else n - TWO_32 }
  function FromSigned(i: int): nat
    requires -0x8000_0000 <= i < 0x8000_0000
  {
    if i >= 0 then i else i + TWO_32
  }

  lemma SignedWord(n: nat)
    requires n < TWO_32
    ensures -0x8000_0000 <= ToSigned(n) < 0x8000_0000 && FromSigned(ToSigned(n)) == n
    ensures (ToSigned(n) - n) % TWO_32 == 0
  {
  }

  function HexDigit(n: nat): char
    requires n < 16
  {
    if n < 10 then '0' + n as char else 'a' + (n - 10) as char
  }

  function HexValue(c: char): nat {
    if '0' <= c <= '9' then c as int - '0' as int
    else if 'a' <= c <= 'f' then c as int - 'a' as int + 10
    else 0
  }

  function Hex(b: Bytes): string {
    if b == [] then "" else [HexDigit(b[0] / 16), HexDigit(b[0] % 16)] + Hex(b[1..])
  }

  function UnHex(s: string): Bytes {
    if |s| < 2 then [] else [(16 * HexValue(s[0]) + HexValue(s[1])) % 256] + UnHex(s[2..])
  }

  /** Two digits a byte, the high half first. */
  lemma {:induction false} HexAt(b: Bytes, i: nat)
    requires i < |b|
    ensures |Hex(b)| == 2 * |b|
    ensures Hex(b)[2 * i] == HexDigit(b[i] / 16) && Hex(b)[2 * i + 1] == HexDigit(b[i] % 16)
  {
    hide HexDigit;
    if |b| > 1 {
      HexAt(b[1..], if i > 0 then i - 1 else 0);
    }
  }

  lemma HexDigits(n: nat)
    requires n < 16
    ensures HexDigit(n) == "0123456789abcdef"[n]
  {
  }

  lemma {:induction false} HexBack(b: Bytes)
    ensures UnHex(Hex(b)) == b
  {
    if b != [] {
      HexBack(b[1..]);
      assert Hex(b)[2..] == Hex(b[1..]);
    }
  }

  /*** The pipeline ***/

  function DecodeOne(e: Element, cur: Bytes, lossy: Bytes -> string): Result<Field>
    requires |cur| == ConsumeSize(e)
  {
    match e
    case Known(p) => if lossy(cur) == p then Ok(KnownField(p)) else Err
    case Int32 => Ok(IntField(ToSigned(BeNat(cur))))
    case Timestamp => Ok(TimeField(BeNat(cur)))
    case Hash => Ok(HashField(Hex(cur)))
    case Text(_) => Ok(TextField(lossy(cur)))
  }

  function Pipeline(b: Bytes, es: seq<Element>, lossy: Bytes -> string): Result<seq<Field>> {
    if es == [] then Ok([])
    else
      var n := ConsumeSize(es[0]);
      if |b| < n then Err
      else
        match DecodeOne(es[0], b[..n], lossy)
        case Err => Err
        case Ok(f) => match Pipeline(b[n..], es[1..], lossy) case Err => Err case Ok(fs) => Ok([f] + fs)
  }

  function Joined(before: seq<Field>, r: Result<seq<Field>>): Result<seq<Field>> {
    match r case Err => Err case Ok(fs) => Ok(before + fs)
  }

  method ProcessDecodersPipeline(input: Bytes, decoders: seq<Element>, lossy: Bytes -> string)
    returns (r: Result<seq<Field>>)
    ensures r == Pipeline(input, decoders, lossy)
  {
    var remain := input;
    var result: seq<Field> := [];
    JoinedNone(Pipeline(input, decoders, lossy));
    assert decoders[0..] == decoders;
    for k := 0 to |decoders|
      invariant Pipeline(input, decoders, lossy) == Joined(result, Pipeline(remain, decoders[k..], lossy))
    {
      assert decoders[k..][1..] == decoders[k + 1..];
      var n := ConsumeSize(decoders[k]);
      if |remain| < n {
        return Err;
      }
      var cur, next := remain[..n], remain[n..];
      var field := DecodeOne(decoders[k], cur, lossy);
      if field.Err? {
        return Err;
      }
      JoinedOne(result, field.value, Pipeline(next, decoders[k + 1..], lossy));
      remain := next;
      result := result + [field.value];
    }
    assert result + [] == result;
    r := Ok(result);
  }

  lemma JoinedNone(r: Result<seq<Field>>)
    ensures Joined([], r) == r
  {
    if r.Ok? {
      assert [] + r.value == r.value;
    }
  }

  lemma JoinedOne(before: seq<Field>, f: Field, r: Result<seq<Field>>)
    ensures Joined(before, Joined([f], r)) == Joined(before + [f], r)
  {
    if r.Ok? {
      assert before + ([f] + r.value) == before + [f] + r.value;
    }
  }

  /*** Encoding a key ***/

  predicate FitsField(e: Element, f: Field) {
    match e
    case Known(p) => f == KnownField(p)
    case Int32 => f.IntField? && -0x8000_0000 <= f.i < 0x8000_0000
    case Timestamp => f.TimeField? && f.t < Pow256(8)
    case Hash => f.HashField? && |UnHex(f.hex)| == 32 && Hex(UnHex(f.hex)) == f.hex
    case Text(n) => f.TextField? && |Utf8(f.s)| == n
  }

  function EncodeField(e: Element, f: Field): (b: Bytes)
    requires FitsField(e, f)
    ensures |b| == ConsumeSize(e)
  {
    match e
    case Known(p) => Utf8(p)
    case Int32 => BeBytes(FromSigned(f.i), 4)
    case Timestamp => BeBytes(f.t, 8)
    case Hash => UnHex(f.hex)
    case Text(_) => Utf8(f.s)
  }

  predicate FitsAll(es: seq<Element>, fs: seq<Field>) {
    |es| == |fs| && forall i :: 0 <= i < |es| ==> FitsField(es[i], fs[i])
  }

  function EncodeKey(es: seq<Element>, fs: seq<Field>): Bytes
    requires FitsAll(es, fs)
  {
    if es == [] then [] else EncodeField(es[0], fs[0]) + EncodeKey(es[1..], fs[1..])
  }

  lemma OneBack(e: Element, f: Field, lossy: Bytes -> string)
    requires FitsField(e, f) && ExactOnUtf8(lossy)
    ensures DecodeOne(e, EncodeField(e, f), lossy) == Ok(f)
  {
    match e
    case Int32 =>
      assert Pow256(2) == 0x1_0000 && Pow256(4) == TWO_32;
      BeRoundTrip(FromSigned(f.i), 4);
    case Timestamp => BeRoundTrip(f.t, 8);
    case _ =>
  }

  /**
   Key round trip: the pipeline on an encoded key returns its fields, whatever bytes follow, and the key
   takes exactly the sum of the element sizes.
   */
  lemma {:induction false} KeyRoundTrip(es: seq<Element>, fs: seq<Field>, rest: Bytes, lossy: Bytes -> string)
    requires FitsAll(es, fs) && ExactOnUtf8(lossy)
    ensures Pipeline(EncodeKey(es, fs) + rest, es, lossy) == Ok(fs)
    ensures |EncodeKey(es, fs)| == TotalSize(es)
  {
    hide EncodeField, DecodeOne, FitsField, ConsumeSize;
    if es != [] {
      KeyRoundTrip(es[1..], fs[1..], rest, lossy);
      OneBack(es[0], fs[0], lossy);
      PipelineHead(EncodeField(es[0], fs[0]), EncodeKey(es[1..], fs[1..]) + rest, es, fs, lossy);
      assert EncodeKey(es, fs) + rest == EncodeField(es[0], fs[0]) + (EncodeKey(es[1..], fs[1..]) + rest);
    }
  }

  lemma PipelineHead(head: Bytes, tail: Bytes, es: seq<Element>, fs: seq<Field>, lossy: Bytes -> string)
    requires es != [] && fs != [] && |head| == ConsumeSize(es[0])
    requires DecodeOne(es[0], head, lossy) == Ok(fs[0]) && Pipeline(tail, es[1..], lossy) == Ok(fs[1..])
    ensures Pipeline(head + tail, es, lossy) == Ok(fs)
  {
    assert (head + tail)[..|head|] == head && (head + tail)[|head|..] == tail;
    assert fs == [fs[0]] + fs[1..];
  }

  lemma OneForth(e: Element, b: Bytes, lossy: Bytes -> string)
    requires ExactOnUtf8(lossy) && |b| == ConsumeSize(e) && DecodeOne(e, b, lossy).Ok?
    requires e.Known? ==> REPLACEMENT !in e.pattern
    requires var f := DecodeOne(e, b, lossy).value; f.TextField? ==> REPLACEMENT !in f.s
    ensures FitsField(e, DecodeOne(e, b, lossy).value) && EncodeField(e, DecodeOne(e, b, lossy).value) == b
  {
    match e
    case Int32 =>
      assert Pow256(2) == 0x1_0000 && Pow256(4) == TWO_32;
      BeBack(b);
    case Timestamp => BeBack(b);
    case Hash => HexBack(b);
    case _ =>
  }

  /** No literal of the format and no text of the result holds a replacement character. */
  predicate Clean(es: seq<Element>, fs: seq<Field>) {
    && (forall i :: 0 <= i < |es| ==> es[i].Known? ==> REPLACEMENT !in es[i].pattern)
    && (forall i :: 0 <= i < |fs| ==> fs[i].TextField? ==> REPLACEMENT !in fs[i].s)
  }

  /** Conversely, whatever the pipeline accepts is an encoded key: its fields determine the bytes it consumed. */
  lemma {:induction false} KeyIsDetermined(b: Bytes, es: seq<Element>, lossy: Bytes -> string)
    requires ExactOnUtf8(lossy) && Pipeline(b, es, lossy).Ok?
    requires Clean(es, Pipeline(b, es, lossy).value)
    ensures FitsAll(es, Pipeline(b, es, lossy).value) && TotalSize(es) <= |b|
    ensures EncodeKey(es, Pipeline(b, es, lossy).value) == b[..TotalSize(es)]
  {
    hide Utf8, DecodeOne, EncodeField, FitsField, ConsumeSize;
    if es != [] {
      var n := ConsumeSize(es[0]);
      var fs := Pipeline(b, es, lossy).value;
      var tail := Pipeline(b[n..], es[1..], lossy).value;
      assert fs[1..] == tail;
      assert fs[0].TextField? ==> REPLACEMENT !in fs[0].s;
      assert Clean(es[1..], tail) by {
        assert forall i :: 0 <= i < |tail| ==> tail[i] == fs[i + 1];
        assert forall i :: 0 <= i < |es[1..]| ==> es[1..][i] == es[i + 1];
      }
      OneForth(es[0], b[..n], lossy);
      KeyIsDetermined(b[n..], es[1..], lossy);
      assert b[..TotalSize(es)] == b[..n] + b[n..][..TotalSize(es[1..])];
    }
  }

  /*** decode_keys ***/

  datatype KeyDecodeResult = KeyDecodeResult(fields: seq<Field>, valueSize: nat)

  predicate KeyAccepted(key: Bytes, es: seq<Element>, ignoreFailures: bool, lossy: Bytes -> string) {
    (|key| == TotalSize(es) || ignoreFailures) && Pipeline(key, es, lossy).Ok?
  }

  /** How many entries are looked at: one more than the limit, when there are that many. */
  function Considered(count: nat, lim: Option<nat>): nat {
    if lim.Some? && lim.value < count then lim.value + 1 else count
  }

  function Kept(count: nat, lim: Option<nat>): nat { if lim.Some? && lim.value < count then lim.value else count }

  predicate AllAccepted(iter: seq<(Bytes, nat)>, n: nat, es: seq<Element>, ignoreFailures: bool, lossy: Bytes -> string)
    requires n <= |iter|
  {
    forall k :: 0 <= k < n ==> KeyAccepted(iter[k].0, es, ignoreFailures, lossy)
  }

  predicate Decodes(r: KeyDecodeResult, entry: (Bytes, nat), es: seq<Element>, lossy: Bytes -> string) {
    Pipeline(entry.0, es, lossy) == Ok(r.fields) && r.valueSize == entry.1
  }

  method DecodeEntries(iter: seq<(Bytes, nat)>, es: seq<Element>, lim: Option<nat>, ignoreFailures: bool,
                       lossy: Bytes -> string)
    returns (r: Result<seq<KeyDecodeResult>>)
    ensures r.Ok? <==> AllAccepted(iter, Considered(|iter|, lim), es, ignoreFailures, lossy)
    ensures r.Ok? ==> |r.value| == Kept(|iter|, lim)
    ensures r.Ok? ==> forall k :: 0 <= k < |r.value| ==> Decodes(r.value[k], iter[k], es, lossy)
  {
    var expected := TotalSize(es);
    var result: seq<KeyDecodeResult> := [];
    for i := 0 to |iter|
      invariant |result| == i && (lim.Some? ==> i <= lim.value)
      invariant AllAccepted(iter, i, es, ignoreFailures, lossy)
      invariant forall k :: 0 <= k < i ==> Decodes(result[k], iter[k], es, lossy)
    {
      var (key, size) := iter[i];
      if |key| != expected && !ignoreFailures {
        assert !KeyAccepted(iter[i].0, es, ignoreFailures, lossy);
        return Err;
      }
      var cur := ProcessDecodersPipeline(key, es, lossy);
      if cur.Err? {
        assert !KeyAccepted(iter[i].0, es, ignoreFailures, lossy);
        return Err;
      }
      result := result + [KeyDecodeResult(cur.value, size)];
      if lim.Some? && |result| > lim.value {
        return Ok(result[..lim.value]);
      }
    }
    r := Ok(result);
  }

  lemma {:induction false} SizeSnoc(es: seq<Element>, e: Element)
    ensures TotalSize(es + [e]) == TotalSize(es) + ConsumeSize(e)
  {
    if es == [] {
      assert es + [e] == [e] && [e][1..] == [];
    } else {
      assert (es + [e])[1..] == es[1..] + [e];
      SizeSnoc(es[1..], e);
    }
  }

  /** A format that ends in a literal refuses every key that really ends in it, unless failures are ignored. */
  lemma TrailingLiteralRefusesItsKeys(es: seq<Element>, literal: string, fs: seq<Field>, lossy: Bytes -> string)
    requires WellFormed(es) && GoodLiteral(literal) && FitsAll(es, fs) && ExactOnUtf8(lossy)
    requires es != [] && Last(es).Text? ==> !IsDigit(literal[0])
    ensures Parse(Print(es) + literal).Ok?
    ensures !KeyAccepted(EncodeKey(es, fs) + Utf8(literal), Parse(Print(es) + literal).value, false, lossy)
  {
    TrailingLiteralIsEmpty(es, literal);
    SizeSnoc(es, Known(""));
    KeyRoundTrip(es, fs, [], lossy);
    assert Utf8(literal) != [];
  }

  /** A format that can be written down: well formed, or well formed up to a literal at the end. */
  predicate Writable(es: seq<Element>) {
    || WellFormed(es)
    || (es != [] && Last(es).Known? && WellFormed(Front(es)) && GoodLiteral(Last(es).pattern) &&
        (|es| > 1 && es[|es| - 2].Text? ==> !IsDigit(Last(es).pattern[0])))
  }

  /** A format as printed accepts the keys written with it exactly when it does not end in a literal. */
  lemma AcceptsItsKeysExactly(es: seq<Element>, fs: seq<Field>, lossy: Bytes -> string)
    requires Writable(es) && FitsAll(es, fs) && ExactOnUtf8(lossy)
    ensures Parse(Print(es)).Ok?
    ensures KeyAccepted(EncodeKey(es, fs), Parse(Print(es)).value, false, lossy) <==> es == [] || !Last(es).Known?
  {
    if WellFormed(es) {
      PrintParseExactly(es);
      KeyRoundTrip(es, fs, [], lossy);
      assert EncodeKey(es, fs) + [] == EncodeKey(es, fs);
      EndsInField(es);
    } else {
      var front, literal := Front(es), Last(es).pattern;
      assert es == front + [Last(es)];
      PrintSnoc(front, Last(es));
      EncodeSnoc(es, fs);
      assert FitsField(es[|es| - 1], fs[|es| - 1]);
      TrailingLiteralRefusesItsKeys(front, literal, Front(fs), lossy);
    }
  }

  lemma {:induction false} EndsInField(es: seq<Element>)
    requires WellFormed(es)
    ensures es != [] ==> !Last(es).Known?
  {
    if |es| > 1 {
      EndsInField(es[1..]);
    }
  }

  lemma {:induction false} EncodeSnoc(es: seq<Element>, fs: seq<Field>)
    requires es != [] && FitsAll(es, fs)
    ensures FitsAll(Front(es), Front(fs))
    ensures EncodeKey(es, fs) == EncodeKey(Front(es), Front(fs)) + EncodeField(Last(es), Last(fs))
  {
    hide EncodeField, FitsField, ConsumeSize, Utf8;
    if |es| > 1 {
      EncodeSnoc(es[1..], fs[1..]);
      assert Front(es)[1..] == Front(es[1..]) && Front(fs)[1..] == Front(fs[1..]);
    }
  }

  /**
   `entries(prefix)` are the keys with the format's literal prefix and the sizes of their values.  Up to
   one key beyond the limit must decode, or the whole call fails; without a percent field nothing is read.
   */
  method DecodeKeys(format: string, entries: string -> seq<(Bytes, nat)>, lim: Option<nat>, ignoreFailures: bool,
                    lossy: Bytes -> string)
    returns (r: Result<seq<KeyDecodeResult>>)
    ensures '%' !in format ==> r == Ok([])
    ensures '%' in format && Parse(format).Err? ==> r.Err?
    ensures '%' in format && Parse(format).Ok? ==>
      var iter := entries(format[..FindPercent(format).value]);
      && (r.Ok? <==> AllAccepted(iter, Considered(|iter|, lim), Parse(format).value, ignoreFailures, lossy))
      && (r.Ok? ==> |r.value| == Kept(|iter|, lim) &&
                    forall k :: 0 <= k < |r.value| ==> Decodes(r.value[k], iter[k], Parse(format).value, lossy))
  {
    var percent := FindPercent(format);
    if percent.None? {
      return Ok([]);
    }
    var decoders := ParseFormatString(format);
    if decoders.Err? {
      return Err;
    }
    r := DecodeEntries(entries(format[..percent.value]), decoders.value, lim, ignoreFailures, lossy);
  }
}

/** The format language of database keys: parsing, printing, and when one undoes the other. */
module KvdbFormat {
  import opened Prelude

  /** One decoder of the pipeline and the bytes it consumes. */
  datatype Element =
    | Known(pattern: string)
    | Int32
    | Timestamp
    | Hash
    | Text(len: nat)

  const USIZE: nat := 0x1_0000_0000_0000_0000

  predicate IsDigit(c: char) { '0' <= c <= '9' }

  /*** The source's parser ***/

  function FindPercent(s: string): (r: Option<nat>)
    ensures r.Some? ==> r.value < |s| && s[r.value] == '%' && forall i :: 0 <= i < r.value ==> s[i] != '%'
    ensures r.None? ==> '%' !in s
  {
    if s == "" then None
    else if s[0] == '%' then Some(0)
    else match FindPercent(s[1..]) case None => None case Some(n) => Some(n + 1)
  }

  /** The longest leading run of digits. */
  function TakeDigits(s: string): (d: string)
    ensures |d| <= |s| && d == s[..|d|]
    ensures forall i :: 0 <= i < |d| ==> IsDigit(d[i])
    ensures |d| < |s| ==> !IsDigit(s[|d|])
  {
    if s == "" || !IsDigit(s[0]) then "" else [s[0]] + TakeDigits(s[1..])
  }

  function DigitsNat(d: string): nat
    requires forall i :: 0 <= i < |d| ==> IsDigit(d[i])
  {
    if d == "" then 0 else 10 * DigitsNat(Front(d)) + DigitValue(d[|d| - 1])
  }

  function DigitValue(c: char): nat
    requires IsDigit(c)
  {
    c as int - '0' as int
  }

  /** `str::parse::<usize>` on digits: refuses the empty string and overflow. */
  function ParseSize(d: string): Option<nat>
    requires forall i :: 0 <= i < |d| ==> IsDigit(d[i])
  {
    if d == "" || DigitsNat(d) >= USIZE then None else Some(DigitsNat(d))
  }

  /** One percent field at the head of `s`, and how many characters it takes. */
  function ParseField(s: string): (r: Option<(Element, nat)>)
    requires s != "" && s[0] == '%'
    ensures r.Some? ==> 2 <= r.value.1 <= |s|
  {
    if |s| < 2 then None
    else if s[1] == 'i' then Some((Int32, 2))
    else if s[1] == 't' then Some((Timestamp, 2))
    else if s[1] == 'h' then Some((Hash, 2))
    else if s[1] == 's' then
      var digits := TakeDigits(s[2..]);
      (match ParseSize(digits)
       case None => None
       case Some(n) => if n == 0 then None else Some((Text(n), 2 + |digits|)))
    else None
  }

  function Cons(plain: string, e: Element, r: Result<seq<Element>>): Result<seq<Element>> {
    match r
    case Err => Err
    case Ok(es) => Ok((if plain == "" then [] else [Known(plain)]) + [e] + es)
  }

  function Parse(s: string): Result<seq<Element>>
    decreases |s|
  {
    if s == "" then Ok([])
    else
      match FindPercent(s)
      case None => Ok([Known("")])
      case Some(pos) =>
        match ParseField(s[pos..])
        case None => Err
        case Some((e, n)) => Cons(s[..pos], e, Parse(s[pos + n..]))
  }

  function Prepend(before: seq<Element>, r: Result<seq<Element>>): Result<seq<Element>> {
    match r
    case Err => Err
    case Ok(es) => Ok(before + es)
  }

  method ParseFormatString(format: string) returns (r: Result<seq<Element>>)
    ensures r == Parse(format)
  {
    hide FindPercent, ParseField;
    var ret: seq<Element> := [];
    var remain := format;
    PrependNone(Parse(format));
    while remain != ""
      invariant Parse(format) == Prepend(ret, Parse(remain))
      decreases |remain|
    {
      var percent := FindPercent(remain);
      match percent
      case None =>
        remain := "";
        ret := ret + [Known(remain)];
        assert ret + [] == ret;
      case Some(pos) =>
        var field := ParseField(remain[pos..]);
        if field.None? {
          return Err;
        }
        var (e, n) := field.value;
        ConsPrepend(ret, remain[..pos], e, Parse(remain[pos + n..]));
        var plain := remain[..pos];
        if plain != "" {
          ret := ret + [Known(plain)];
        }
        ret := ret + [e];
        remain := remain[pos + n..];
    }
    assert ret + [] == ret;
    r := Ok(ret);
  }

  lemma PrependNone(r: Result<seq<Element>>)
    ensures Prepend([], r) == r
  {
    if r.Ok? {
      assert [] + r.value == r.value;
    }
  }

  lemma ConsPrepend(before: seq<Element>, plain: string, e: Element, r: Result<seq<Element>>)
    ensures Prepend(before, Cons(plain, e, r)) ==
            Prepend(if plain == "" then before + [e] else before + [Known(plain)] + [e], r)
  {
    if r.Ok? {
      if plain == "" {
        assert before + ([] + [e] + r.value) == before + [e] + r.value;
      } else {
        assert before + ([Known(plain)] + [e] + r.value) == before + [Known(plain)] + [e] + r.value;
      }
    }
  }

  /*** Printing ***/

  function Digit(n: nat): char
    requires n < 10
  {
    '0' + n as char
  }

  function Decimal(n: nat): string { if n < 10 then [Digit(n)] else Decimal(n / 10) + [Digit(n % 10)] }

  function PrintOne(e: Element): string {
    match e
    case Known(p) => p
    case Int32 => "%i"
    case Timestamp => "%t"
    case Hash => "%h"
    case Text(n) => "%s" + Decimal(n)
  }

  function Print(es: seq<Element>): string { if es == [] then "" else PrintOne(es[0]) + Print(es[1..]) }

  lemma {:induction false} DecimalBack(n: nat)
    ensures Decimal(n) != "" && forall i :: 0 <= i < |Decimal(n)| ==> IsDigit(Decimal(n)[i])
    ensures DigitsNat(Decimal(n)) == n
  {
    if n < 10 {
      assert Front([Digit(n)]) == "";
    } else {
      DecimalBack(n / 10);
      assert Front(Decimal(n)) == Decimal(n / 10);
    }
  }

  lemma {:induction false} DigitsTaken(d: string, tail: string)
    requires forall i :: 0 <= i < |d| ==> IsDigit(d[i])
    requires tail == "" || !IsDigit(tail[0])
    ensures TakeDigits(d + tail) == d
  {
    if d != "" {
      assert (d + tail)[1..] == d[1..] + tail;
      DigitsTaken(d[1..], tail);
      assert d == [d[0]] + d[1..];
    } else {
      assert d + tail == tail;
    }
  }

  /*** When printing can be parsed back ***/

  predicate GoodField(e: Element) { !e.Known? && (e.Text? ==> 0 < e.len < USIZE) }

  predicate GoodLiteral(p: string) { p != "" && '%' !in p }

  /** A literal would be glued to the size of the text field before it. */
  predicate Glued(e: Element, next: seq<Element>) {
    e.Text? && next != [] && next[0].Known? && next[0].pattern != "" && IsDigit(next[0].pattern[0])
  }

  /**
   The formats that survive: literals are nonempty and without percent signs, a percent field follows
   each of them, sizes are positive and fit a usize, and no literal starts with a digit after a text field.
   */
  predicate WellFormed(es: seq<Element>) {
    if es == [] then true
    else if es[0].Known? then
      GoodLiteral(es[0].pattern) && |es| > 1 && !es[1].Known? && WellFormed(es[1..])
    else GoodField(es[0]) && !Glued(es[0], es[1..]) && WellFormed(es[1..])
  }

  lemma TextBack(n: nat, tail: string)
    requires 0 < n < USIZE && (tail != "" ==> !IsDigit(tail[0]))
    ensures var s := ['%', 's'] + Decimal(n) + tail;
            ParseField(s) == Some((Text(n), 2 + |Decimal(n)|))
  {
    hide TakeDigits, DigitsNat, Decimal;
    var s := ['%', 's'] + Decimal(n) + tail;
    DecimalBack(n);
    assert s[2..] == Decimal(n) + tail;
    DigitsTaken(Decimal(n), tail);
  }

  lemma FieldBack(e: Element, tail: string)
    requires GoodField(e) && (e.Text? && tail != "" ==> !IsDigit(tail[0]))
    ensures var s := PrintOne(e) + tail;
            s[0] == '%' && ParseField(s) == Some((e, |PrintOne(e)|)) && s[|PrintOne(e)|..] == tail
  {
    if e.Text? {
      TextBack(e.len, tail);
    } else {
      assert (PrintOne(e) + tail)[1] == PrintOne(e)[1];
    }
  }

  lemma {:induction false} PercentAfter(p: string, s: string)
    requires '%' !in p && s != "" && s[0] == '%'
    ensures FindPercent(p + s) == Some(|p|)
  {
    if p == "" {
      assert p + s == s;
    } else {
      assert (p + s)[1..] == p[1..] + s;
      PercentAfter(p[1..], s);
    }
  }

  /** What follows a field in a printed format never continues the digits of a text size. */
  lemma NextCharacter(e: Element, es: seq<Element>)
    requires WellFormed(es) && !Glued(e, es)
    ensures e.Text? && Print(es) != "" ==> !IsDigit(Print(es)[0])
    ensures es != [] && !es[0].Known? ==> Print(es) != "" && Print(es)[0] == '%'
  {
    if es != [] {
      assert Print(es) == PrintOne(es[0]) + Print(es[1..]);
    }
  }

  /** One literal (perhaps empty) and one field in front of a printed format. */
  lemma ParseStep(p: string, e: Element, es: seq<Element>)
    requires '%' !in p && GoodField(e) && WellFormed(es) && !Glued(e, es)
    ensures Parse(p + (PrintOne(e) + Print(es))) == Cons(p, e, Parse(Print(es)))
  {
    NextCharacter(e, es);
    FieldBack(e, Print(es));
    PieceParses(p, PrintOne(e) + Print(es), e, |PrintOne(e)|);
  }

  /** A literal followed by a string that starts with a field: the parser takes them in that order. */
  lemma PieceParses(p: string, s: string, e: Element, n: nat)
    requires '%' !in p && s != "" && s[0] == '%' && ParseField(s) == Some((e, n))
    ensures Parse(p + s) == Cons(p, e, Parse(s[n..]))
  {
    FieldInside(p, s, e, n);
    ParseUnfold(p + s, |p|, e, n, p, s[n..]);
  }

  lemma FieldInside(p: string, s: string, e: Element, n: nat)
    requires '%' !in p && s != "" && s[0] == '%' && ParseField(s) == Some((e, n))
    ensures FindPercent(p + s) == Some(|p|) && ParseField((p + s)[|p|..]) == Some((e, n))
    ensures p == (p + s)[..|p|] && s[n..] == (p + s)[|p| + n..]
  {
    PercentAfter(p, s);
    Slices(p, s, n);
  }

  lemma Slices(p: string, s: string, n: nat)
    requires n <= |s|
    ensures (p + s)[..|p|] == p && (p + s)[|p|..] == s && (p + s)[|p| + n..] == s[n..]
  {
  }

  lemma ParseUnfold(t: string, pos: nat, e: Element, n: nat, plain: string, rest: string)
    requires t != "" && FindPercent(t) == Some(pos) && ParseField(t[pos..]) == Some((e, n))
    requires plain == t[..pos] && rest == t[pos + n..]
    ensures Parse(t) == Cons(plain, e, Parse(rest))
  {
    hide FindPercent, ParseField;
  }

  lemma {:induction false} WellFormedParsesBack(es: seq<Element>)
    requires WellFormed(es)
    ensures Parse(Print(es)) == Ok(es)
    decreases |es|
  {
    if es != [] {
      var p, e, rest := HeadPiece(es);
      WellFormedParsesBack(rest);
      ParseStep(p, e, rest);
    }
  }

  /*** What the parser can return ***/

  /** A parsed format is well formed, apart from one empty literal at the very end. */
  predicate ParsedForm(es: seq<Element>) {
    if es == [] || es == [Known("")] then true
    else if es[0].Known? then
      GoodLiteral(es[0].pattern) && |es| > 1 && !es[1].Known? && ParsedForm(es[1..])
    else GoodField(es[0]) && !Glued(es[0], es[1..]) && ParsedForm(es[1..])
  }

  lemma ParsedFormCons(plain: string, e: Element, es: seq<Element>)
    requires '%' !in plain && GoodField(e) && ParsedForm(es) && !Glued(e, es)
    ensures ParsedForm((if plain == "" then [] else [Known(plain)]) + [e] + es)
  {
    var p: seq<Element> := if plain == "" then [] else [Known(plain)];
    var tail := [e] + es;
    assert tail[1..] == es && ParsedForm(tail);
    var all := p + [e] + es;
    if plain == "" {
      assert all == tail;
    } else {
      assert all[1..] == tail && all[0] == Known(plain) && all[1] == e;
    }
  }

  lemma {:induction false} ParserOutput(s: string)
    requires Parse(s).Ok?
    ensures ParsedForm(Parse(s).value)
    ensures var es := Parse(s).value;
            es != [] && es[0].Known? && es[0].pattern != "" ==> s != "" && es[0].pattern[0] == s[0]
    decreases |s|
  {
    hide FindPercent, TakeDigits, DigitsNat;
    if s != "" && FindPercent(s).Some? {
      hide ParsedForm;
      var pos := FindPercent(s).value;
      var plain, left := s[..pos], s[pos..];
      var (e, n) := ParseField(left).value;
      var rest := s[pos + n..];
      ParserOutput(rest);
      assert rest == left[n..];
      if e.Text? && rest != "" {
        assert rest[0] == left[2..][|TakeDigits(left[2..])|];
      }
      ParsedFormCons(plain, e, Parse(rest).value);
    }
  }

  lemma {:induction false} ParsedFormSplits(es: seq<Element>)
    requires ParsedForm(es)
    ensures WellFormed(es) || (es != [] && es == Front(es) + [Known("")] && WellFormed(Front(es)))
  {
    if es != [] && es != [Known("")] {
      ParsedFormSplits(es[1..]);
      if !WellFormed(es[1..]) {
        assert Last(es) == Last(es[1..]);
        assert Front(es)[1..] == Front(es[1..]);
        assert Front(es)[0] == es[0];
        if Front(es[1..]) != [] {
          assert Front(es[1..])[0] == es[1];
        }
      }
    }
  }

  lemma {:induction false} PrintSnoc(es: seq<Element>, e: Element)
    ensures Print(es + [e]) == Print(es) + PrintOne(e)
  {
    if es == [] {
      assert es + [e] == [e] && [e][1..] == [];
    } else {
      assert (es + [e])[1..] == es[1..] + [e];
      PrintSnoc(es[1..], e);
    }
  }

  /** Format language inverse, exactly: a printed format parses back to itself iff it is well formed. */
  lemma PrintParseExactly(es: seq<Element>)
    ensures Parse(Print(es)) == Ok(es) <==> WellFormed(es)
  {
    if WellFormed(es) {
      WellFormedParsesBack(es);
    } else if Parse(Print(es)) == Ok(es) {
      ParserOutput(Print(es));
      ParsedFormSplits(es);
      LastLiteralLost(Front(es));
    }
  }

  lemma LastLiteralLost(es: seq<Element>)
    requires WellFormed(es)
    ensures Parse(Print(es + [Known("")])) == Ok(es)
  {
    PrintSnoc(es, Known(""));
    assert Print(es) + "" == Print(es);
    WellFormedParsesBack(es);
  }

  /** A trailing literal is lost: whatever it says, it is parsed as an empty literal that consumes nothing. */
  lemma {:induction false} TrailingLiteralIsEmpty(es: seq<Element>, literal: string)
    requires WellFormed(es) && GoodLiteral(literal)
    requires es != [] && Last(es).Text? ==> !IsDigit(literal[0])
    ensures Parse(Print(es) + literal) == Ok(es + [Known("")])
    decreases |es|
  {
    if es == [] {
      assert Print(es) + literal == literal;
      assert es + [Known("")] == [Known("")];
    } else {
      var p, e, rest := HeadPiece(es);
      TrailingLiteralIsEmpty(rest, literal);
      TrailingStep(p, e, rest, literal);
      Regroup(p, PrintOne(e), Print(rest), literal);
      Regroup(if p == "" then [] else [Known(p)], [e], rest, [Known("")]);
    }
  }

  lemma Regroup<T>(a: seq<T>, b: seq<T>, c: seq<T>, d: seq<T>)
    ensures a + (b + c) + d == a + (b + (c + d))
    ensures a + b + c + d == a + b + (c + d)
  {
  }

  /** A well-formed format is a literal, perhaps empty, then a field, then a well-formed format. */
  lemma HeadPiece(es: seq<Element>) returns (p: string, e: Element, rest: seq<Element>)
    requires WellFormed(es) && es != []
    ensures '%' !in p && GoodField(e) && WellFormed(rest) && !Glued(e, rest) && |rest| < |es|
    ensures es == (if p == "" then [] else [Known(p)]) + [e] + rest
    ensures Print(es) == p + (PrintOne(e) + Print(rest))
    ensures Last(es) == if rest == [] then e else Last(rest)
  {
    if es[0].Known? {
      p, e, rest := es[0].pattern, es[1], es[1..][1..];
      assert WellFormed(es[1..]);
    } else {
      p, e, rest := "", es[0], es[1..];
      assert Print(es) == "" + (PrintOne(e) + Print(rest));
    }
  }

  lemma TrailingStep(p: string, e: Element, es: seq<Element>, literal: string)
    requires '%' !in p && GoodField(e) && WellFormed(es) && !Glued(e, es) && GoodLiteral(literal)
    requires es == [] && e.Text? ==> !IsDigit(literal[0])
    ensures Parse(p + (PrintOne(e) + (Print(es) + literal))) == Cons(p, e, Parse(Print(es) + literal))
  {
    var tail := Print(es) + literal;
    NextCharacter(e, es);
    assert tail[0] == if Print(es) == "" then literal[0] else Print(es)[0];
    FieldBack(e, tail);
    PieceParses(p, PrintOne(e) + tail, e, |PrintOne(e)|);
  }

  /*** Every string that parses ***/

  /** How a field may be spelled; the size of a text may have leading zeros. */
  predicate SpellsField(t: string, e: Element) {
    match e
    case Int32 => t == "%i"
    case Timestamp => t == "%t"
    case Hash => t == "%h"
    case Text(n) =>
      && |t| > 2 && t[..2] == "%s" && (forall i :: 2 <= i < |t| ==> IsDigit(t[i]))
      && DigitsNat(t[2..]) == n && 0 < n < USIZE
    case Known(_) => false
  }

  /** `s` is a literal, perhaps empty, one field, and `rest`, which does not continue the digits of a text field. */
  predicate Begins(s: string, plain: nat, taken: nat, e: Element) {
    && plain + taken <= |s| && '%' !in s[..plain] && SpellsField(s[plain..plain + taken], e)
    && (e.Text? && plain + taken < |s| ==> !IsDigit(s[plain + taken]))
  }

  function Listed(plain: string, e: Element): seq<Element> { (if plain == "" then [] else [Known(plain)]) + [e] }

  /** What a format string says: nothing, a literal that is ignored, or a piece and the rest. */
  ghost predicate Spells(s: string, es: seq<Element>)
    decreases |s|
  {
    if s == "" then es == []
    else if '%' !in s then es == [Known("")]
    else exists plain: nat, taken: nat, e :: Begins(s, plain, taken, e) && SpellsRest(s, plain, taken, e, es)
  }

  ghost predicate SpellsRest(s: string, plain: nat, taken: nat, e: Element, es: seq<Element>)
    requires Begins(s, plain, taken, e)
    decreases |s|, 0
  {
    var head := Listed(s[..plain], e);
    taken > 0 && head <= es && Spells(s[plain + taken..], es[|head|..])
  }

  /** One field at the head, as the parser takes it. */
  lemma FieldExactly(s: string, e: Element, n: nat)
    requires s != "" && s[0] == '%'
    ensures ParseField(s) == Some((e, n)) <==>
            n <= |s| && SpellsField(s[..n], e) && (e.Text? && n < |s| ==> !IsDigit(s[n]))
  {
    if |s| >= 2 {
      if s[1] == 's' {
        TextExactly(s, e, n);
      } else {
        assert n == 2 ==> s[..n] == [s[0], s[1]];
        assert 2 <= n <= |s| ==> s[..n][1] == s[1];
        assert SpellsField(s[..2], e) ==> !e.Text?;
      }
    }
  }

  lemma TextExactly(s: string, e: Element, n: nat)
    requires |s| >= 2 && s[0] == '%' && s[1] == 's'
    ensures ParseField(s) == Some((e, n)) <==>
            n <= |s| && SpellsField(s[..n], e) && (e.Text? && n < |s| ==> !IsDigit(s[n]))
  {
    var digits := TakeDigits(s[2..]);
    var m := 2 + |digits|;
    assert s[2..][..|digits|] == s[..m][2..] == digits;
    if n <= |s| && SpellsField(s[..n], e) && (e.Text? && n < |s| ==> !IsDigit(s[n])) {
      assert s[..n][1] == s[1] == 's';
      assert e.Text?;
      SameRun(s, n, m);
    }
    assert s[..m][..2] == s[..2] == "%s";
  }

  /** There is one longest run of digits. */
  lemma SameRun(s: string, n: nat, m: nat)
    requires 2 <= n <= |s| && 2 <= m <= |s|
    requires (forall i :: 2 <= i < n ==> IsDigit(s[i])) && (n < |s| ==> !IsDigit(s[n]))
    requires (forall i :: 2 <= i < m ==> IsDigit(s[i])) && (m < |s| ==> !IsDigit(s[m]))
    ensures n == m
  {
  }

  lemma OnePercent(s: string, pos: nat)
    requires pos < |s| && s[pos] == '%' && '%' !in s[..pos]
    ensures FindPercent(s) == Some(pos)
  {
    assert '%' in s;
    assert forall i :: 0 <= i < pos ==> s[..pos][i] == s[i];
  }

  /** The parser starts exactly where the string says. */
  lemma BeginsExactly(s: string, plain: nat, taken: nat, e: Element)
    requires '%' in s
    ensures Begins(s, plain, taken, e) <==>
            FindPercent(s) == Some(plain) && ParseField(s[plain..]) == Some((e, taken))
  {
    var found := FindPercent(s);
    assert found.Some?;
    assert '%' !in s[..found.value];
    if Begins(s, plain, taken, e) {
      assert s[plain..plain + taken][0] == '%';
      OnePercent(s, plain);
    }
    if found == Some(plain) {
      FieldExactly(s[plain..], e, taken);
      assert taken <= |s[plain..]| ==> s[plain..][..taken] == s[plain..plain + taken];
    }
  }

  /**
   The parser, exactly, on every string: it returns these elements just when the string spells them, and fails on
   a string that spells nothing.  A literal after the last field is spelled as an empty one.
   */
  lemma {:induction false} ParseExactly(s: string, es: seq<Element>)
    ensures Parse(s) == Ok(es) <==> Spells(s, es)
    decreases |s|
  {
    if s != "" && '%' in s {
      var pos := FindPercent(s).value;
      if Parse(s) == Ok(es) {
        var (e, n) := ParseField(s[pos..]).value;
        BeginsExactly(s, pos, n, e);
        ParsedRest(s, pos, n, e, es);
        ParseExactly(s[pos + n..], es[|Listed(s[..pos], e)|..]);
        assert SpellsRest(s, pos, n, e, es);
      }
      if Spells(s, es) {
        var plain: nat, taken: nat, e :| Begins(s, plain, taken, e) && SpellsRest(s, plain, taken, e, es);
        BeginsExactly(s, plain, taken, e);
        ParsedRest(s, plain, taken, e, es);
        ParseExactly(s[plain + taken..], es[|Listed(s[..plain], e)|..]);
      }
    } else {
      NothingSpelled(s);
    }
  }

  lemma NothingSpelled(s: string)
    requires '%' !in s
    ensures Parse(s) == if s == "" then Ok([]) else Ok([Known("")])
  {
  }

  lemma ParsedRest(s: string, pos: nat, n: nat, e: Element, es: seq<Element>)
    requires s != "" && FindPercent(s) == Some(pos) && ParseField(s[pos..]) == Some((e, n))
    ensures var head := Listed(s[..pos], e);
            Parse(s) == Ok(es) <==> head <= es && Parse(s[pos + n..]) == Ok(es[|head|..])
  {
    var head, rest := Listed(s[..pos], e), Parse(s[pos + n..]);
    ParseUnfold(s, pos, e, n, s[..pos], s[pos + n..]);
    hide Parse, FindPercent, ParseField;
    if rest.Ok? {
      assert Cons(s[..pos], e, rest) == Ok(head + rest.value);
      assert (head + rest.value)[|head|..] == rest.value;
    }
    if head <= es {
      assert es == head + es[|head|..];
    }
  }
}

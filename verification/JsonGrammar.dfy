/**
  * The strings and numbers of RFC 8259 and their meaning, and that the parser reads every one of them as it is meant.
  * What the parts of the grammar stand for is written down here and owes nothing to the parser.
  */
module JsonGrammar {
  import opened Options
  import opened JsonText
  import opened JsonParse
  import opened JsonRoundTrip

  // ---------- Strings, section 7 ----------

  type Nibble = n: nat | n < 16

  /** A hexadecimal digit, in upper or lower case where it is a letter. */
  datatype Hex = Hex(value: Nibble, upper: bool)

  datatype Quad = Quad(a: Hex, b: Hex, c: Hex, d: Hex)

  /** One unescaped byte, one of the eight short escapes, one \uXXXX, or two of them for one code point. */
  datatype Unit =
    | Plain(b: Byte)
    | QuotationMark
    | ReverseSolidus
    | Solidus
    | Backspace
    | FormFeed
    | LineFeed
    | CarriageReturn
    | Tabulation
    | Code(q: Quad)
    | Pair(high: Quad, low: Quad)

  const LOWER_HEX: Bytes := [48, 49, 50, 51, 52, 53, 54, 55, 56, 57, 97, 98, 99, 100, 101, 102]
  const UPPER_HEX: Bytes := [48, 49, 50, 51, 52, 53, 54, 55, 56, 57, 65, 66, 67, 68, 69, 70]

  function HexChar(h: Hex): Byte {
    if h.upper then UPPER_HEX[h.value] else LOWER_HEX[h.value]
  }

  function QuadText(q: Quad): Bytes {
    [0x5c, 0x75, HexChar(q.a), HexChar(q.b), HexChar(q.c), HexChar(q.d)]
  }

  function QuadValue(q: Quad): nat {
    4096 * q.a.value + 256 * q.b.value + 16 * q.c.value + q.d.value
  }

  function UnitText(u: Unit): Bytes {
    match u
    case Plain(b) => [b]
    case QuotationMark => [0x5c, 0x22]
    case ReverseSolidus => [0x5c, 0x5c]
    case Solidus => [0x5c, 0x2f]
    case Backspace => [0x5c, 0x62]
    case FormFeed => [0x5c, 0x66]
    case LineFeed => [0x5c, 0x6e]
    case CarriageReturn => [0x5c, 0x72]
    case Tabulation => [0x5c, 0x74]
    case Code(q) => QuadText(q)
    case Pair(high, low) => QuadText(high) + QuadText(low)
  }

  /** A quotation mark or reverse solidus has to be escaped, and surrogates come in pairs. */
  predicate UnitOk(u: Unit) {
    match u
    case Plain(b) => b != 0x22 && b != 0x5c
    case Code(q) => !(0xd800 <= QuadValue(q) <= 0xdfff)
    case Pair(high, low) => 0xd800 <= QuadValue(high) <= 0xdbff && 0xdc00 <= QuadValue(low) <= 0xdfff
    case _ => true
  }

  lemma QuadBound(q: Quad)
    ensures QuadValue(q) <= 0xffff
  {
  }

  function UnitMeaning(u: Unit): Bytes
    requires UnitOk(u)
  {
    match u
    case Plain(b) => [b]
    case QuotationMark => [0x22]
    case ReverseSolidus => [0x5c]
    case Solidus => [0x2f]
    case Backspace => [0x08]
    case FormFeed => [0x0c]
    case LineFeed => [0x0a]
    case CarriageReturn => [0x0d]
    case Tabulation => [0x09]
    case Code(q) => Utf8(QuadValue(q))
    case Pair(high, low) => Utf8(0x10000 + (QuadValue(high) - 0xd800) * 0x400 + (QuadValue(low) - 0xdc00))
  }

  predicate UnitsOk(units: seq<Unit>) {
    forall i :: 0 <= i < |units| ==> UnitOk(units[i])
  }

  /** The units and the closing quotation mark, followed by `post`. */
  function StringText(units: seq<Unit>, post: Bytes): Bytes {
    if units == [] then [0x22] + post else UnitText(units[0]) + StringText(units[1..], post)
  }

  function StringMeaning(units: seq<Unit>): Bytes
    requires UnitsOk(units)
  {
    if units == [] then [] else UnitMeaning(units[0]) + StringMeaning(units[1..])
  }

  lemma HexCharRead(h: Hex)
    ensures HexValue(HexChar(h)) == Some(h.value)
    ensures HexChar(h) !in {QUOTE, BACKSLASH}
  {
  }

  lemma QuadRead(q: Quad, pre: Bytes, s: Bytes)
    ensures var t := pre + QuadText(q) + s;
            Hex4(t, |pre| + 2) == QuadValue(q) && Plain4(t[|pre| + 2..])
  {
    HexCharRead(q.a);
    HexCharRead(q.b);
    HexCharRead(q.c);
    HexCharRead(q.d);
    hide HexValue, HexChar;
    var t, n := pre + QuadText(q) + s, |pre|;
    assert t[n + 2] == HexChar(q.a) && t[n + 3] == HexChar(q.b) && t[n + 4] == HexChar(q.c) && t[n + 5] == HexChar(q.d);
  }

  /** The first pass runs over one \uXXXX. */
  lemma ScanQuad(q: Quad, s: Bytes)
    requires Scan(s).Some?
    ensures var r := Scan(QuadText(q) + s); r.Some? && r.value.0 == 6 + Scan(s).value.0
  {
    var t := QuadText(q) + s;
    QuadRead(q, [], s);
    assert [] + QuadText(q) + s == t;
    assert t[2..][4..] == s;
    ScanPlain4(t[2..]);
  }

  lemma ScanUnit(u: Unit, s: Bytes)
    requires UnitOk(u) && Scan(s).Some?
    ensures var r := Scan(UnitText(u) + s); r.Some? && r.value.0 == |UnitText(u)| + Scan(s).value.0
  {
    hide Scan, QuadText;
    match u
    case Plain(b) => ScanPlain(b, s);
    case Code(q) =>
      QuadLength(q);
      ScanQuad(q, s);
    case Pair(high, low) =>
      QuadLength(high);
      QuadLength(low);
      ScanPair(high, low, s);
    case _ => ScanShort(UnitText(u), s);
  }

  lemma QuadLength(q: Quad)
    ensures |QuadText(q)| == 6
  {
  }

  lemma ScanPlain(b: Byte, s: Bytes)
    requires b != QUOTE && b != BACKSLASH && Scan(s).Some?
    ensures var r := Scan([b] + s); r.Some? && r.value.0 == 1 + Scan(s).value.0
  {
    assert ([b] + s)[1..] == s;
  }

  lemma ScanPair(high: Quad, low: Quad, s: Bytes)
    requires Scan(s).Some?
    ensures var r := Scan(QuadText(high) + QuadText(low) + s); r.Some? && r.value.0 == 12 + Scan(s).value.0
  {
    hide Scan;
    ScanQuad(low, s);
    ScanQuad(high, QuadText(low) + s);
    assert QuadText(high) + QuadText(low) + s == QuadText(high) + (QuadText(low) + s);
  }

  lemma ScanShort(e: Bytes, s: Bytes)
    requires |e| == 2 && e[0] == BACKSLASH && Scan(s).Some?
    ensures var r := Scan(e + s); r.Some? && r.value.0 == 2 + Scan(s).value.0
  {
    assert (e + s)[2..] == s;
  }

  lemma CodeForm(q: Quad, s: Bytes)
    ensures var t := QuadText(q) + s;
            && [] + QuadText(q) + s == t && |t| == 6 + |s|
            && t[6..] == s && t[0] == BACKSLASH && t[1] == LETTER_U
  {
  }

  lemma CodeLiteralAt(t: Bytes, q: Quad)
    requires |t| > 6 && UnitOk(Code(q)) && Hex4(t, 2) == QuadValue(q)
    ensures Utf16Literal(t) == Some((UnitMeaning(Code(q)), 6))
  {
    hide Hex4, Utf8, QuadValue;
  }

  lemma DecodeCode(q: Quad, s: Bytes)
    requires s != [] && UnitOk(Code(q))
    ensures Decode(QuadText(q) + s) == Prepend(UnitMeaning(Code(q)), Decode(s))
  {
    hide Hex4, QuadText, Utf8, QuadValue, UnitMeaning, UnitOk, Utf16Literal, Plain4;
    QuadRead(q, [], s);
    CodeForm(q, s);
    CodeLiteralAt(QuadText(q) + s, q);
  }

  /** Two escapes that form a surrogate pair, at the start of the input. */
  lemma PairLiteralAt(t: Bytes, high: Quad, low: Quad)
    requires |t| > 12 && t[6] == BACKSLASH && t[7] == LETTER_U && UnitOk(Pair(high, low))
    requires Hex4(t, 2) == QuadValue(high) && Hex4(t, 8) == QuadValue(low)
    ensures Utf16Literal(t) == Some((UnitMeaning(Pair(high, low)), 12))
  {
    hide Hex4, Utf8, QuadValue;
  }

  lemma PairForm(high: Quad, low: Quad, s: Bytes)
    ensures var t := QuadText(high) + QuadText(low) + s;
            && [] + QuadText(high) + (QuadText(low) + s) == t && |QuadText(high)| == 6 && |t| == 12 + |s|
            && t[12..] == s && t[0] == BACKSLASH && t[1] == LETTER_U && t[6] == BACKSLASH && t[7] == LETTER_U
  {
  }

  lemma DecodePair(high: Quad, low: Quad, s: Bytes)
    requires s != [] && UnitOk(Pair(high, low))
    ensures Decode(QuadText(high) + QuadText(low) + s) == Prepend(UnitMeaning(Pair(high, low)), Decode(s))
  {
    hide Hex4, QuadText, Utf8, QuadValue, UnitMeaning, UnitOk, Utf16Literal, Plain4;
    var t := QuadText(high) + QuadText(low) + s;
    QuadRead(high, [], QuadText(low) + s);
    QuadRead(low, QuadText(high), s);
    PairForm(high, low, s);
    PairLiteralAt(t, high, low);
  }

  /** The second pass turns one unit into what it means. */
  lemma DecodeUnit(u: Unit, s: Bytes)
    requires UnitOk(u) && s != []
    ensures Decode(UnitText(u) + s) == Prepend(UnitMeaning(u), Decode(s))
  {
    var t := UnitText(u) + s;
    match u
    case Plain(b) => assert t[1..] == s;
    case Code(q) => DecodeCode(q, s);
    case Pair(high, low) => DecodePair(high, low, s);
    case _ => assert t[2..] == s;
  }

  lemma SliceBehind(u: Bytes, t: Bytes, n: nat)
    requires n <= |t|
    ensures (u + t)[..|u| + n] == u + t[..n] && (u + t)[|u| + n..] == t[n..]
  {
  }

  lemma {:induction false} ScanUnits(units: seq<Unit>, post: Bytes)
    requires UnitsOk(units)
    ensures var t := StringText(units, post); var n := |StringText(units, [])| - 1;
            && Scan(t).Some? && Scan(t).value.0 == n && n < |t|
            && t[..n + 1] == StringText(units, []) && t[n + 1..] == post
  {
    if units != [] {
      hide UnitText, Scan, UnitOk;
      ScanUnits(units[1..], post);
      var u, t, e := UnitText(units[0]), StringText(units[1..], post), StringText(units[1..], []);
      assert StringText(units, post) == u + t && StringText(units, []) == u + e;
      hide StringText;
      ScanUnit(units[0], t);
      SliceBehind(u, t, |e|);
    }
  }

  lemma {:induction false} DecodeUnits(units: seq<Unit>)
    requires UnitsOk(units)
    ensures Decode(StringText(units, [])) == Some(StringMeaning(units))
  {
    if units != [] {
      hide UnitText, UnitOk, UnitMeaning;
      DecodeUnits(units[1..]);
      assert StringText(units[1..], []) != [];
      DecodeUnit(units[0], StringText(units[1..], []));
    }
  }

  /** Every string of the grammar is read as the concatenation of what its units mean, and the rest is left. */
  lemma StringParses(units: seq<Unit>, post: Bytes)
    requires UnitsOk(units)
    ensures ParseString([0x22] + StringText(units, post)) == Ok(StringMeaning(units), post)
  {
    hide StringText, StringMeaning, Scan, Decode, UnitsOk;
    var t := StringText(units, post);
    ScanUnits(units, post);
    DecodeUnits(units);
    Slices(0x22, t, Scan(t).value.0);
  }

  lemma Slices(b: Byte, t: Bytes, n: nat)
    requires n < |t|
    ensures var s := [b] + t; s[1..] == t && s[1..n + 2] == t[..n + 1] && s[n + 2..] == t[n + 1..]
  {
  }

  // ---------- Numbers, section 6 ----------

  type Digit = n: nat | n < 10

  datatype Sign = NoSign | Plus | Minus

  datatype Exp = NoExp | Exp(upper: bool, sign: Sign, digits: seq<Digit>)

  /** A sign, digits, the digits behind the point if there are any, and an exponent. */
  datatype Number = Number(minus: bool, whole: seq<Digit>, frac: seq<Digit>, exp: Exp)

  function DigitChar(d: Digit): Byte {
    var n: int := d;
    0x30 + n
  }

  function DigitsText(ds: seq<Digit>): Bytes {
    seq(|ds|, i requires 0 <= i < |ds| => DigitChar(ds[i]))
  }

  function SignText(sign: Sign): Bytes {
    match sign
    case NoSign => []
    case Plus => [0x2b]
    case Minus => [0x2d]
  }

  function ExpText(e: Exp): Bytes {
    match e
    case NoExp => []
    case Exp(upper, sign, digits) => [if upper then 0x45 else 0x65] + (SignText(sign) + DigitsText(digits))
  }

  function FracText(ds: seq<Digit>): Bytes {
    if ds == [] then [] else [0x2e] + DigitsText(ds)
  }

  function NumberText(n: Number): Bytes {
    (if n.minus then [0x2d] else []) + (DigitsText(n.whole) + (FracText(n.frac) + ExpText(n.exp)))
  }

  /** The parser looks at no more than 63 bytes of a number. */
  predicate NumberOk(n: Number) {
    n.whole != [] && (n.exp.Exp? ==> n.exp.digits != []) && |NumberText(n)| <= 63
  }

  /** Each digit counts by its place. */
  function Decimal(ds: seq<Digit>): nat {
    if ds == [] then 0 else ds[0] * Power10(|ds| - 1) + Decimal(ds[1..])
  }

  /** A power of ten. */
  function TenTo(e: int): (r: real)
    ensures r > 0.0
    decreases if e < 0 then -e else e
  {
    if e == 0 then 1.0 else if e > 0 then 10.0 * TenTo(e - 1) else TenTo(e + 1) / 10.0
  }

  function ExpMeaning(e: Exp): int {
    match e
    case NoExp => 0 as int
    case Exp(_, sign, digits) => if sign == Minus then 0 - Decimal(digits) else Decimal(digits)
  }

  /** All the digits as one integer, scaled by the exponent and the place of the point. */
  function NumberMeaning(n: Number): real {
    var x := Decimal(n.whole + n.frac) as real * TenTo(ExpMeaning(n.exp) - |n.frac|);
    if n.minus then -x else x
  }

  lemma {:induction false} TenToAdds(a: int, b: int)
    ensures TenTo(a + b) == TenTo(a) * TenTo(b)
    decreases if b < 0 then -b else b
  {
    hide TenTo;
    if b == 0 {
      TenToZero();
    } else if b > 0 {
      TenToAdds(a, b - 1);
      TenToStep(a + b - 1);
      TenToStep(b - 1);
      TimesTen(TenTo(a + b - 1), TenTo(a + b), TenTo(a), TenTo(b - 1), TenTo(b));
    } else {
      TenToAdds(a, b + 1);
      TenToStep(a + b);
      TenToStep(b);
      TimesTen(TenTo(a + b), TenTo(a + b + 1), TenTo(a), TenTo(b), TenTo(b + 1));
    }
  }

  lemma TenToZero()
    ensures TenTo(0) == 1.0
  {
  }

  lemma TimesTen(x: real, x': real, y: real, z: real, z': real)
    requires x' == 10.0 * x && z' == 10.0 * z
    ensures x == y * z <==> x' == y * z'
  {
    assert y * (10.0 * z) == 10.0 * (y * z);
  }

  lemma TenToStep(e: int)
    ensures TenTo(e + 1) == 10.0 * TenTo(e)
  {
  }

  lemma {:induction false} TenToPow(n: nat)
    ensures TenTo(n) == Pow10(n) && TenTo(n) == Power10(n) as real
  {
    if n > 0 {
      TenToPow(n - 1);
    }
  }

  lemma {:induction false} DecimalJoin(a: seq<Digit>, b: seq<Digit>)
    ensures Decimal(a + b) == Decimal(a) * Power10(|b|) + Decimal(b)
  {
    if a == [] {
      assert a + b == b;
    } else {
      DecimalJoin(a[1..], b);
      assert (a + b)[1..] == a[1..] + b;
      assert Decimal(a + b) == a[0] * Power10(|a| - 1 + |b|) + Decimal(a[1..] + b);
      assert Decimal(a) == a[0] * Power10(|a| - 1) + Decimal(a[1..]);
      hide Decimal, Power10;
      Power10Adds(|a| - 1, |b|);
      Distributes(a[0], Power10(|a| - 1), Decimal(a[1..]), Power10(|b|));
    }
  }

  lemma Distributes(d: nat, p: nat, x: nat, q: nat)
    ensures (d * p + x) * q == d * (p * q) + x * q
  {
    assert (d * p) * q == d * (p * q);
  }

  lemma {:induction false} Power10Adds(m: nat, n: nat)
    ensures Power10(m + n) == Power10(m) * Power10(n)
  {
    if m > 0 {
      Power10Adds(m - 1, n);
    }
  }

  /** The value that is read digit by digit is the one by places. */
  lemma {:induction false} DigitsRead(ds: seq<Digit>)
    ensures DigitsValue(DigitsText(ds)) == Decimal(ds)
  {
    if ds != [] {
      var init, last := ds[..|ds| - 1], ds[|ds| - 1];
      DigitsRead(init);
      assert DigitsText(ds)[..|ds| - 1] == DigitsText(init);
      DecimalJoin(init, [last]);
      assert ds == init + [last];
      assert Power10(1) == 10 && Power10(0) == 1;
      assert Decimal([last]) == last;
    }
  }

  lemma DigitsRunText(ds: seq<Digit>, post: Bytes)
    requires post == [] || !IsDigit(post[0])
    ensures DigitsRun(DigitsText(ds) + post) == |ds|
  {
    DigitsRunAll(DigitsText(ds), post);
  }

  lemma ExponentRead(e: Exp)
    requires e.Exp? ==> e.digits != []
    ensures Exponent(ExpText(e)) == (ExpMeaning(e), |ExpText(e)|)
  {
    if e.Exp? {
      hide Exponent, DigitsRun, DigitsValue, SignLength, DigitsText, Decimal, ExpText, SignText;
      var d := DigitsText(e.digits);
      ExpForm(e);
      DigitsRead(e.digits);
      ExponentAt(ExpText(e), |SignText(e.sign)|, |d|);
    }
  }

  lemma ExpForm(e: Exp)
    requires e.Exp? && e.digits != []
    ensures var s, d, sign := ExpText(e), DigitsText(e.digits), |SignText(e.sign)|;
            && |s| == 1 + sign + |d| && s[0] in {69, 101} && SignLength(s[1..]) == sign
            && s[1 + sign..] == d && s[1 + sign..1 + sign + |d|] == d && DigitsRun(d) == |d| > 0
            && (sign == 1 && s[1] == MINUS <==> e.sign == Minus)
  {
    var d := DigitsText(e.digits);
    SignRead(e.sign, d);
    DigitsRunText(e.digits, []);
    assert d + [] == d;
    hide DigitsRun, SignLength, DigitsText;
    ExpSlices(if e.upper then 0x45 else 0x65, SignText(e.sign), d);
  }

  lemma SignRead(sign: Sign, d: Bytes)
    requires d != [] && 0x30 <= d[0]
    ensures var s := SignText(sign) + d; SignLength(s) == |SignText(sign)|
    ensures sign == Minus <==> SignText(sign) == [MINUS]
  {
  }

  lemma ExpSlices(letter: Byte, sign: Bytes, d: Bytes)
    requires |sign| <= 1
    ensures var s := [letter] + (sign + d);
            && s[1..] == sign + d && s[1 + |sign|..] == d && s[1 + |sign|..1 + |sign| + |d|] == d
            && (|sign| == 1 && s[1] == MINUS <==> sign == [MINUS])
  {
    assert sign != [] ==> sign == [sign[0]];
  }

  lemma ExponentAt(s: Bytes, sign: nat, digits: nat)
    requires |s| == 1 + sign + digits && s[0] in {69, 101} && SignLength(s[1..]) == sign
    requires DigitsRun(s[1 + sign..]) == digits > 0
    ensures var v := DigitsValue(s[1 + sign..1 + sign + digits]);
            Exponent(s) == (if sign == 1 && s[1] == MINUS then -v else v, |s|)
  {
    hide DigitsRun, DigitsValue, SignLength;
  }

  lemma MantissaScaled(w: nat, f: nat, k: nat, e: int)
    ensures Scale(w as real + f as real / Pow10(k), e) == (w * Power10(k) + f) as real * TenTo(e - k)
  {
    hide TenTo, Pow10, Power10;
    TenToPow(k);
    TenToAdds(e - k, k);
    if e >= 0 {
      TenToPow(e);
    } else {
      TenToPow(-e);
      TenToAdds(e, -e);
      TenToZero();
    }
    ScaledAlgebra(w as real, f as real, Pow10(k), TenTo(e - k), TenTo(e), if e >= 0 then 1.0 else Pow10(-e));
    assert (w * Power10(k) + f) as real == w as real * Pow10(k) + f as real;
  }

  lemma ScaledAlgebra(w: real, f: real, p: real, t: real, te: real, q: real)
    requires p > 0.0 && q > 0.0 && te == t * p
    ensures (w + f / p) * te == (w * p + f) * t
    ensures te * q == 1.0 ==> (w + f / p) / q == (w * p + f) * t
  {
    var m := w + f / p;
    assert m * p == w * p + f;
    assert m * te == (m * p) * t by {
      assert m * (t * p) == (m * p) * t;
    }
    if te * q == 1.0 {
      assert m * (te * q) == (m * te) * q;
      assert m / q == m * te;
    }
  }

  /** strtod, once the lengths of the parts are known. */
  lemma StrtodAt(s: Bytes, sign: nat, whole: nat, point: nat, frac: nat, exp: int)
    requires sign + whole + point + frac <= |s| && SignLength(s) == sign && whole > 0
    requires DigitsRun(s[sign..]) == whole
    requires point == (if sign + whole < |s| && s[sign + whole] == 46 then 1 else 0)
    requires frac == (if point == 1 then DigitsRun(s[sign + whole + 1..]) else 0)
    requires var rest := s[sign + whole + point + frac..]; Exponent(rest) == (exp, |rest|)
    ensures var mid, end := sign + whole, sign + whole + point + frac;
            var whole', frac' := DigitsValue(s[sign..mid]), DigitsValue(s[mid + point..end]);
            var x := Scale(whole' as real + frac' as real / Pow10(frac), exp);
            Strtod(s) == Some((if sign == 1 && s[0] == MINUS then -x else x, |s|))
  {
    hide DigitsRun, DigitsValue, SignLength, Exponent, Scale, Pow10;
  }

  /** Behind `sign` bytes come these three parts and nothing else. */
  ghost predicate Sliced(s: Bytes, sign: nat, w: Bytes, f: Bytes, e: Bytes) {
    var mid := sign + |w|;
    && |s| == mid + |f| + |e|
    && s[sign..] == w + (f + e) && s[sign..mid] == w && s[mid..] == f + e && s[mid + |f|..] == e
  }

  lemma NumberSlices(m: Bytes, w: Bytes, f: Bytes, e: Bytes)
    ensures Sliced(m + (w + (f + e)), |m|, w, f, e)
  {
  }

  lemma PointSlices(s: Bytes, mid: nat, f: Bytes, e: Bytes)
    requires mid <= |s| && f != [] && s[mid..] == f + e
    ensures s[mid] == f[0] && s[mid + 1..] == f[1..] + e && s[mid + 1..mid + |f|] == f[1..]
  {
    var t := s[mid..];
    assert s[mid] == t[0] && s[mid + 1..] == t[1..] && s[mid + 1..mid + |f|] == t[1..|f|];
  }

  /** Behind the digits of a part comes no digit. */
  lemma NoDigitBehind(n: Number)
    ensures var t := FracText(n.frac) + ExpText(n.exp);
            && (t == [] || !IsDigit(t[0]))
            && (n.frac == [] ==> t == [] || t[0] != 46)
            && (ExpText(n.exp) == [] || !IsDigit(ExpText(n.exp)[0]))
  {
  }

  lemma SignOfNumber(n: Number)
    requires n.whole != []
    ensures var s := NumberText(n);
            SignLength(s) == (if n.minus then 1 else 0) && (n.minus <==> s[0] == MINUS)
  {
    var m: Bytes := if n.minus then [0x2d] else [];
    var s := NumberText(n);
    assert s[|m|] == DigitChar(n.whole[0]);
  }

  /** Where the parts of a number are in its text, and how far their digits run. */
  ghost predicate Parts(n: Number, s: Bytes, sign: nat, point: nat) {
    var w, f, e := DigitsText(n.whole), FracText(n.frac), ExpText(n.exp);
    && Sliced(s, sign, w, f, e)
    && sign == (if n.minus then 1 else 0) && point == (if n.frac == [] then 0 else 1)
    && |w| == |n.whole| && |f| == point + |n.frac|
    && (n.frac != [] ==> f[0] == 46 && f[1..] == DigitsText(n.frac))
    && (n.frac == [] ==> f + e == [] || (f + e)[0] != 46)
    && DigitsRun(w + (f + e)) == |n.whole| && DigitsRun(DigitsText(n.frac) + e) == |n.frac|
    && SignLength(s) == sign && (n.minus <==> s != [] && s[0] == MINUS)
  }

  lemma NumberHasParts(n: Number)
    requires n.whole != []
    ensures Parts(n, NumberText(n), if n.minus then 1 else 0, if n.frac == [] then 0 else 1)
  {
    hide DigitsRun, SignLength, DigitsText, ExpText, NumberText, FracText, IsDigit, Sliced;
    var m: Bytes := if n.minus then [0x2d] else [];
    var w, f, e := DigitsText(n.whole), FracText(n.frac), ExpText(n.exp);
    FracForm(n.frac);
    NumberForm(n);
    NoDigitBehind(n);
    SignOfNumber(n);
    DigitsRunText(n.whole, f + e);
    DigitsRunText(n.frac, e);
    NumberSlices(m, w, f, e);
  }

  lemma NumberForm(n: Number)
    ensures |DigitsText(n.whole)| == |n.whole|
    ensures NumberText(n) ==
            (if n.minus then [MINUS] else []) + (DigitsText(n.whole) + (FracText(n.frac) + ExpText(n.exp)))
  {
  }

  lemma FracForm(ds: seq<Digit>)
    ensures |FracText(ds)| == if ds == [] then 0 else 1 + |ds|
    ensures ds != [] ==> FracText(ds)[0] == 46 && FracText(ds)[1..] == DigitsText(ds)
  {
  }

  /** The digits behind the point, or nothing. */
  lemma FracParts(n: Number, s: Bytes, sign: nat, point: nat)
    requires Parts(n, s, sign, point)
    ensures var mid := sign + |n.whole|; var end := mid + point + |n.frac|;
            && end <= |s| && s[mid + point..end] == DigitsText(n.frac)
            && point == (if mid < |s| && s[mid] == 46 then 1 else 0)
            && |n.frac| == (if point == 1 then DigitsRun(s[mid + 1..]) else 0)
  {
    hide DigitsRun, SignLength, DigitsText, ExpText, FracText;
    var f, e := FracText(n.frac), ExpText(n.exp);
    var mid := sign + |n.whole|;
    if n.frac == [] {
      assert mid < |s| ==> s[mid] == s[mid..][0];
      NoDigits();
    } else {
      PointSlices(s, mid, f, e);
    }
  }

  lemma NumberValue(n: Number)
    requires n.whole != [] && (n.exp.Exp? ==> n.exp.digits != [])
    ensures Strtod(NumberText(n)) == Some((NumberMeaning(n), |NumberText(n)|))
  {
    hide DigitsRun, DigitsValue, SignLength, Exponent, Scale, Pow10, Strtod, DigitsText, ExpText, Decimal,
         NumberText, FracText, NumberMeaning, Parts;
    var s, sign, point := NumberText(n), if n.minus then 1 else 0, if n.frac == [] then 0 else 1;
    NumberHasParts(n);
    FracParts(n, s, sign, point);
    OtherParts(n, s, sign, point);
    ExponentRead(n.exp);
    DigitsRead(n.whole);
    DigitsRead(n.frac);
    StrtodAt(s, sign, |n.whole|, point, |n.frac|, ExpMeaning(n.exp));
    MeaningScaled(n);
  }

  lemma OtherParts(n: Number, s: Bytes, sign: nat, point: nat)
    requires Parts(n, s, sign, point)
    ensures var mid := sign + |n.whole|; var end := mid + point + |n.frac|;
            && end <= |s| && s[sign..mid] == DigitsText(n.whole) && s[end..] == ExpText(n.exp)
            && DigitsRun(s[sign..]) == |n.whole| && SignLength(s) == sign && (n.minus <==> s != [] && s[0] == MINUS)
  {
    hide DigitsRun, SignLength, DigitsText, ExpText, FracText;
  }

  lemma MeaningScaled(n: Number)
    ensures var x := Scale(Decimal(n.whole) as real + Decimal(n.frac) as real / Pow10(|n.frac|), ExpMeaning(n.exp));
            NumberMeaning(n) == if n.minus then -x else x
  {
    hide Scale, Pow10, Decimal, TenTo, Power10;
    DecimalJoin(n.whole, n.frac);
    MantissaScaled(Decimal(n.whole), Decimal(n.frac), |n.frac|, ExpMeaning(n.exp));
  }

  lemma NoDigits()
    ensures DigitsText([]) == []
  {
  }

  lemma NumberBytes(n: Number)
    ensures forall i :: 0 <= i < |NumberText(n)| ==> InNumber(NumberText(n)[i])
  {
    assert forall i :: 0 <= i < |DigitsText(n.whole)| ==> InNumber(DigitsText(n.whole)[i]);
    assert forall i :: 0 <= i < |FracText(n.frac)| ==> InNumber(FracText(n.frac)[i]);
    assert forall i :: 0 <= i < |ExpText(n.exp)| ==> InNumber(ExpText(n.exp)[i]);
    hide DigitsText, FracText, ExpText, InNumber;
    assert InNumber(0x2d) by {
      MinusInNumber();
    }
  }

  lemma MinusInNumber()
    ensures InNumber(0x2d)
  {
  }

  /** Every number of the grammar of at most 63 bytes is read as its value, and the rest is left. */
  lemma NumberParses(n: Number, post: Bytes)
    requires NumberOk(n) && EndsNumber(post)
    ensures ParseNumber(NumberText(n) + post) == Ok(NumberMeaning(n), post)
  {
    var t := NumberText(n);
    NumberBytes(n);
    NumberValue(n);
    hide NumberText, Strtod, NumberMeaning, InNumber;
    NumberRunAll(t, post, 63);
    assert (t + post)[..|t|] == t && (t + post)[|t|..] == post;
  }
}

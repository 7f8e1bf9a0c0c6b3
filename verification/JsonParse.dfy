/** What parse_value makes of an input: a function of the bytes that remain, for every input. */
module JsonParse {
  import opened Options
  import opened JsonText

  /** A parsed value with the bytes after it. */
  datatype Parsed<+T> = Fail | Ok(value: T, rest: Bytes)

  // ---------- White space ----------

  /** buffer_skip_whitespace: it stops before the last byte even if that is white space too. */
  function SkipWs(s: Bytes): (r: Bytes)
    ensures |r| <= |s|
    ensures s != [] ==> r != []
  {
    if |s| >= 2 && s[0] <= SPACE then SkipWs(s[1..]) else s
  }

  // ---------- Strings ----------

  /** The first pass of parse_string: how far the closing quote is, and how many backslashes come before it. */
  function Scan(s: Bytes): (r: Option<(nat, nat)>)
    ensures r.Some? ==> r.value.0 < |s| && s[r.value.0] == QUOTE && 2 * r.value.1 <= r.value.0
  {
    if s == [] then None
    else if s[0] == QUOTE then Some((0, 0))
    else if s[0] != BACKSLASH then
      var r := Scan(s[1..]);
      if r.None? then None else Some((r.value.0 + 1, r.value.1))
    else if |s| < 2 then None
    else
      var r := Scan(s[2..]);
      if r.None? then None else Some((r.value.0 + 2, r.value.1 + 1))
  }

  function HexValue(b: Byte): Option<nat> {
    if 48 <= b <= 57 then Some(b - 48)
    else if 65 <= b <= 70 then Some(b - 55)
    else if 97 <= b <= 102 then Some(b - 87)
    else None
  }

  /** parse_hex4: any byte that is no hexadecimal digit makes the code zero. */
  function Hex4(s: Bytes, i: nat): (h: nat)
    requires i + 4 <= |s|
    ensures h < 0x10000
  {
    var a, b, c, d := HexValue(s[i]), HexValue(s[i + 1]), HexValue(s[i + 2]), HexValue(s[i + 3]);
    if a.None? || b.None? || c.None? || d.None? then 0
    else a.value * 4096 + b.value * 256 + c.value * 16 + d.value
  }

  /** The UTF-8 encoding of a code point. */
  function Utf8(cp: nat): (r: Bytes)
    requires cp <= 0x10ffff
    ensures 1 <= |r| <= 4
    ensures cp < 0x80 ==> |r| == 1
    ensures cp < 0x10000 ==> |r| <= 3
  {
    if cp < 0x80 then [cp]
    else if cp < 0x800 then [0xc0 + cp / 64, 0x80 + cp % 64]
    else if cp < 0x10000 then [0xe0 + cp / 4096, 0x80 + cp / 64 % 64, 0x80 + cp % 64]
    else [0xf0 + cp / 262144, 0x80 + cp / 4096 % 64, 0x80 + cp / 64 % 64, 0x80 + cp % 64]
  }

  /**
    * utf16_literal_to_utf8: the bytes for the escape at the start of `s`, and how many input bytes it takes. The last
    * byte of `s` is the closing quote, which does not belong to the string.
    */
  function Utf16Literal(s: Bytes): (r: Option<(Bytes, nat)>)
    ensures r.Some? ==> r.value.1 in {6, 12} && r.value.1 < |s|
  {
    if |s| - 1 < 6 then None
    else
      var first := Hex4(s, 2);
      if 0xdc00 <= first <= 0xdfff then None
      else if 0xd800 <= first <= 0xdbff then
        if |s| - 1 < 12 || s[6] != BACKSLASH || s[7] != LETTER_U then None
        else
          var second := Hex4(s, 8);
          if second < 0xdc00 || second > 0xdfff then None
          else Some((Utf8(0x10000 + (first - 0xd800) * 1024 + (second - 0xdc00)), 12))
      else Some((Utf8(first), 6))
  }

  /** The byte that a two-character escape stands for. */
  function Unescape(b: Byte): Option<Byte> {
    if b == QUOTE || b == BACKSLASH || b == 47 then Some(b)
    else if b == 98 then Some(8)
    else if b == 102 then Some(12)
    else if b == 110 then Some(10)
    else if b == 114 then Some(13)
    else if b == 116 then Some(9)
    else None
  }

  /** The second pass of parse_string: the bytes written for an input that ends with the closing quote. */
  function Decode(s: Bytes): Option<Bytes> {
    if |s| <= 1 then Some([])
    else if s[0] != BACKSLASH then Prepend([s[0]], Decode(s[1..]))
    else if s[1] == LETTER_U then
      var u := Utf16Literal(s);
      if u.None? then None else Prepend(u.value.0, Decode(s[u.value.1..]))
    else
      var b := Unescape(s[1]);
      if b.None? then None else Prepend([b.value], Decode(s[2..]))
  }

  function Prepend(a: Bytes, r: Option<Bytes>): Option<Bytes> {
    if r.None? then None else Some(a + r.value)
  }

  function ParseString(s: Bytes): (r: Parsed<Bytes>)
    ensures r.Ok? ==> |r.rest| < |s|
  {
    if s == [] || s[0] != QUOTE then Fail
    else
      var scan := Scan(s[1..]);
      if scan.None? then Fail
      else
        var end := 1 + scan.value.0;
        var out := Decode(s[1..end + 1]);
        if out.None? then Fail else Ok(out.value, s[end + 1..])
  }

  // ---------- Numbers ----------

  predicate IsDigit(b: Byte) {
    48 <= b <= 57
  }

  /** The bytes that parse_number copies before it calls strtod. */
  predicate InNumber(b: Byte) {
    IsDigit(b) || b == 43 || b == 45 || b == 46 || b == 69 || b == 101
  }

  function NumberRun(s: Bytes, max: nat): (n: nat)
    ensures n <= |s| && n <= max
  {
    if max == 0 || s == [] || !InNumber(s[0]) then 0 else 1 + NumberRun(s[1..], max - 1)
  }

  function DigitsRun(s: Bytes): (n: nat)
    ensures n <= |s|
  {
    if s == [] || !IsDigit(s[0]) then 0 else 1 + DigitsRun(s[1..])
  }

  function DigitsValue(s: Bytes): int {
    if s == [] then 0 else DigitsValue(s[..|s| - 1]) * 10 + s[|s| - 1] - 48
  }

  function Pow10(n: nat): (r: real)
    ensures r > 0.0
  {
    if n == 0 then 1.0 else 10.0 * Pow10(n - 1)
  }

  function Scale(x: real, exp: int): real {
    if exp >= 0 then x * Pow10(exp) else x / Pow10(-exp)
  }

  function SignLength(s: Bytes): (n: nat)
    ensures n <= |s|
  {
    if s != [] && (s[0] == 43 || s[0] == 45) then 1 else 0
  }

  /** The exponent part at the start of `s`: its value and length, zero and zero if there is none. */
  function Exponent(s: Bytes): (r: (int, nat))
    ensures r.1 <= |s|
  {
    if s == [] || (s[0] != 69 && s[0] != 101) then (0, 0)
    else
      var sign := SignLength(s[1..]);
      var digits := DigitsRun(s[1 + sign..]);
      if digits == 0 then (0, 0)
      else
        var e := DigitsValue(s[1 + sign..1 + sign + digits]);
        (if sign == 1 && s[1] == MINUS then -e else e, 1 + sign + digits)
  }

  /** strtod on a run of number bytes: the value and how many bytes it took. */
  function Strtod(s: Bytes): (r: Option<(real, nat)>)
    ensures r.Some? ==> 1 <= r.value.1 <= |s|
  {
    var sign := SignLength(s);
    var whole := DigitsRun(s[sign..]);
    var mid := sign + whole;
    var point := if mid < |s| && s[mid] == 46 then 1 else 0;
    var frac := if point == 1 then DigitsRun(s[mid + 1..]) else 0;
    if whole + frac == 0 then None
    else
      var end := mid + point + frac;
      var (exp, expLength) := Exponent(s[end..]);
      var mantissa := DigitsValue(s[sign..mid]) as real + DigitsValue(s[mid + point..end]) as real / Pow10(frac);
      var x := Scale(mantissa, exp);
      Some((if sign == 1 && s[0] == MINUS then -x else x, end + expLength))
  }

  function ParseNumber(s: Bytes): (r: Parsed<real>)
    ensures r.Ok? ==> |r.rest| < |s|
  {
    var run := NumberRun(s, 63);
    var x := Strtod(s[..run]);
    if x.None? then Fail else Ok(x.value.0, s[x.value.1..])
  }

  // ---------- Values ----------

  predicate StartsWith(s: Bytes, p: Bytes) {
    |p| <= |s| && s[..|p|] == p
  }

  function At(s: Bytes): int {
    if s == [] then -1 else s[0]
  }

  function ParseValue(s: Bytes, depth: nat): (r: Parsed<Json>)
    ensures r.Ok? ==> |r.rest| < |s|
    decreases |s|, 0
  {
    if StartsWith(s, NULL_TEXT) then Ok(Null, s[4..])
    else if StartsWith(s, FALSE_TEXT) then Ok(Bool(false), s[5..])
    else if StartsWith(s, TRUE_TEXT) then Ok(Bool(true), s[4..])
    else if At(s) == QUOTE then
      var r := ParseString(s);
      if r.Fail? then Fail else Ok(Str(r.value), r.rest)
    else if At(s) == MINUS || 48 <= At(s) <= 57 then
      var r := ParseNumber(s);
      if r.Fail? then Fail else Ok(Num(r.value), r.rest)
    else if At(s) == OPEN_BRACKET then
      if depth >= NESTING_LIMIT then Fail
      else
        var s1 := SkipWs(s[1..]);
        if At(s1) == CLOSE_BRACKET then Ok(Arr([]), s1[1..])
        else if s1 == [] then Fail
        else
          var r := ParseItems(s1, depth + 1);
          if r.Fail? then Fail else Ok(Arr(r.value), r.rest)
    else if At(s) == OPEN_BRACE then
      if depth >= NESTING_LIMIT then Fail
      else
        var s1 := SkipWs(s[1..]);
        if At(s1) == CLOSE_BRACE then Ok(Obj([]), s1[1..])
        else if s1 == [] then Fail
        else
          var r := ParseMembers(s1, depth + 1);
          if r.Fail? then Fail else Ok(Obj(r.value), r.rest)
    else Fail
  }

  function ParseItems(s: Bytes, depth: nat): (r: Parsed<seq<Json>>)
    ensures r.Ok? ==> |r.rest| < |s|
    decreases |s|, 1
  {
    var v := ParseValue(SkipWs(s), depth);
    if v.Fail? then Fail
    else
      var s1 := SkipWs(v.rest);
      if At(s1) == COMMA then
        var more := ParseItems(s1[1..], depth);
        if more.Fail? then Fail else Ok([v.value] + more.value, more.rest)
      else if At(s1) == CLOSE_BRACKET then Ok([v.value], s1[1..])
      else Fail
  }

  function ParseMember(s: Bytes, depth: nat): (r: Parsed<Member>)
    ensures r.Ok? ==> |r.rest| < |s|
    decreases |s|, 1
  {
    var name := ParseString(SkipWs(s));
    if name.Fail? then Fail
    else
      var s1 := SkipWs(name.rest);
      if At(s1) != COLON then Fail
      else
        var v := ParseValue(SkipWs(s1[1..]), depth);
        if v.Fail? then Fail else Ok(Member(name.value, v.value), v.rest)
  }

  function ParseMembers(s: Bytes, depth: nat): (r: Parsed<seq<Member>>)
    ensures r.Ok? ==> |r.rest| < |s|
    decreases |s|, 2
  {
    var m := ParseMember(s, depth);
    if m.Fail? then Fail
    else
      var s1 := SkipWs(m.rest);
      if At(s1) == COMMA then
        var more := ParseMembers(s1[1..], depth);
        if more.Fail? then Fail else Ok([m.value] + more.value, more.rest)
      else if At(s1) == CLOSE_BRACE then Ok([m.value], s1[1..])
      else Fail
  }

  /** skip_utf8_bom */
  function SkipBom(s: Bytes): Bytes {
    if |s| > 4 && s[..3] == [0xef, 0xbb, 0xbf] then s[3..] else s
  }

  /** cJSON_ParseWithLengthOpts: with `wholeText`, only a zero byte may follow the value. */
  function Parse(s: Bytes, wholeText: bool): Option<Json> {
    if s == [] then None
    else
      var r := ParseValue(SkipWs(SkipBom(s)), 0);
      if r.Fail? then None
      else if wholeText && At(SkipWs(r.rest)) != 0 then None
      else Some(r.value)
  }
}

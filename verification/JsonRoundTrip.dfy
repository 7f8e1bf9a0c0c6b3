/** Parsing what was printed gives the tree back. */
module JsonRoundTrip {
  import opened Options
  import opened JsonText
  import opened JsonParse
  import JsonReader
  import JsonWriter

  // ---------- White space ----------

  ghost predicate AllBlank(s: Bytes) {
    forall i :: 0 <= i < |s| ==> s[i] <= SPACE
  }

  lemma {:induction false} SkipBlanks(blanks: Bytes, s: Bytes)
    requires AllBlank(blanks) && s != [] && s[0] > SPACE
    ensures SkipWs(blanks + s) == s
  {
    if blanks != [] {
      SkipBlanks(blanks[1..], s);
      assert (blanks + s)[1..] == blanks[1..] + s;
    }
  }

  // ---------- Strings ----------

  lemma EscapeByteShape(b: Byte)
    requires b != 0
    ensures var e := EscapeByte(b);
            || (|e| == 1 && e[0] == b && b != QUOTE && b != BACKSLASH)
            || (|e| == 2 && e[0] == BACKSLASH && e[1] != LETTER_U && Unescape(e[1]) == Some(b))
            || (|e| == 6 && e[0] == BACKSLASH && e[1] == LETTER_U && b < 32 && Hex4(e, 2) == b && Plain4(e[2..]))
  {
  }

  predicate Plain4(s: Bytes) {
    && |s| >= 4 && s[0] !in {QUOTE, BACKSLASH} && s[1] !in {QUOTE, BACKSLASH}
    && s[2] !in {QUOTE, BACKSLASH} && s[3] !in {QUOTE, BACKSLASH}
  }

  lemma ScanPlain4(s: Bytes)
    requires Plain4(s) && Scan(s[4..]).Some?
    ensures Scan(s) == Some((Scan(s[4..]).value.0 + 4, Scan(s[4..]).value.1))
  {
    assert s[1..][1..] == s[2..] && s[2..][1..] == s[3..] && s[3..][1..] == s[4..];
    assert Scan(s[3..]).Some? && Scan(s[2..]).Some? && Scan(s[1..]).Some?;
  }

  /** The first pass runs over one escaped byte. */
  lemma ScanEscapedByte(b: Byte, s: Bytes)
    requires b != 0 && Scan(s).Some?
    ensures var r := Scan(EscapeByte(b) + s); r.Some? && r.value.0 == |EscapeByte(b)| + Scan(s).value.0
  {
    var e := EscapeByte(b);
    var t := e + s;
    EscapeByteShape(b);
    hide EscapeByte, Hex4, Unescape;
    if |e| == 1 {
      assert t[1..] == s;
    } else if |e| == 2 {
      assert t[2..] == s;
    } else {
      assert t[2..][..4] == e[2..] && t[2..][4..] == s;
      ScanPlain4(t[2..]);
    }
  }

  lemma {:induction false} ScanEscaped(b: Bytes, post: Bytes)
    requires NoNul(b)
    ensures var r := Scan(Escape(b) + [QUOTE] + post); r.Some? && r.value.0 == |Escape(b)|
  {
    if b == [] {
      assert Escape(b) + [QUOTE] + post == [QUOTE] + post;
    } else {
      hide Scan, EscapeByte;
      ScanEscaped(b[1..], post);
      ScanEscapedByte(b[0], Escape(b[1..]) + [QUOTE] + post);
      assert Escape(b) + [QUOTE] + post == EscapeByte(b[0]) + (Escape(b[1..]) + [QUOTE] + post);
    }
  }

  /** The second pass turns one escaped byte back. */
  lemma DecodeEscapedByte(b: Byte, s: Bytes)
    requires b != 0 && s != []
    ensures Decode(EscapeByte(b) + s) == Prepend([b], Decode(s))
  {
    var e := EscapeByte(b);
    var t := e + s;
    EscapeByteShape(b);
    hide EscapeByte, Unescape;
    if |e| == 1 {
      assert t[1..] == s;
    } else if |e| == 2 {
      assert t[2..] == s;
    } else {
      assert t[6..] == s;
      assert Hex4(t, 2) == Hex4(e, 2);
      assert Utf16Literal(t) == Some(([b], 6));
    }
  }

  lemma {:induction false} DecodeEscaped(b: Bytes)
    requires NoNul(b)
    ensures Decode(Escape(b) + [QUOTE]) == Some(b)
  {
    if b != [] {
      DecodeEscaped(b[1..]);
      DecodeEscapedByte(b[0], Escape(b[1..]) + [QUOTE]);
      assert Escape(b) + [QUOTE] == EscapeByte(b[0]) + (Escape(b[1..]) + [QUOTE]);
      assert [b[0]] + b[1..] == b;
    }
  }

  lemma QuotedRoundTrip(b: Bytes, post: Bytes)
    requires NoNul(b)
    ensures ParseString(Quoted(b) + post) == Ok(b, post)
  {
    var s := Quoted(b) + post;
    assert s[1..] == Escape(b) + [QUOTE] + post;
    ScanEscaped(b, post);
    DecodeEscaped(b);
    assert s[1..|Escape(b)| + 2] == Escape(b) + [QUOTE];
    assert s[|Escape(b)| + 2..] == post;
  }

  // ---------- Numbers ----------

  lemma {:induction false} DigitsRunAll(d: Bytes, post: Bytes)
    requires forall i :: 0 <= i < |d| ==> IsDigit(d[i])
    requires post == [] || !IsDigit(post[0])
    ensures DigitsRun(d + post) == |d|
  {
    if d != [] {
      DigitsRunAll(d[1..], post);
      assert (d + post)[1..] == d[1..] + post;
    }
  }

  lemma {:induction false} NumberRunAll(d: Bytes, post: Bytes, max: nat)
    requires |d| <= max && forall i :: 0 <= i < |d| ==> InNumber(d[i])
    requires post == [] || !InNumber(post[0])
    ensures NumberRun(d + post, max) == |d|
  {
    if d != [] {
      NumberRunAll(d[1..], post, max - 1);
      assert (d + post)[1..] == d[1..] + post;
    }
  }

  lemma {:induction false} NatTextValue(n: nat)
    ensures DigitsValue(NatText(n)) == n
  {
    if n >= 10 {
      NatTextValue(n / 10);
      var t := NatText(n);
      assert t[..|t| - 1] == NatText(n / 10);
    }
  }

  lemma {:induction false} NatTextLength(n: nat, k: nat)
    requires k >= 1 && n < Power10(k)
    ensures |NatText(n)| <= k
  {
    assert Power10(1) == 10;
    if n >= 10 {
      NatTextLength(n / 10, k - 1);
    }
  }

  function Power10(k: nat): nat {
    if k == 0 then 1 else 10 * Power10(k - 1)
  }

  lemma IntTextLength(i: int)
    requires -0x8000_0000 <= i <= INT_MAX
    ensures |IntText(i)| <= 11
  {
    assert Power10(2) == 100 && Power10(4) == 10000 && Power10(6) == 1000000 && Power10(8) == 100000000;
    assert Power10(10) == 10000000000;
    NatTextLength(if i < 0 then -i else i, 10);
  }

  /** Digits alone, behind an optional sign. */
  lemma StrtodDigits(s: Bytes, d: Bytes)
    requires d != [] && s[SignLength(s)..] == d && DigitsRun(d) == |d|
    ensures Strtod(s) ==
            Some((if SignLength(s) == 1 && s[0] == MINUS then -(DigitsValue(d) as real) else DigitsValue(d) as real,
                  |s|))
  {
    hide DigitsRun, SignLength, DigitsValue, Exponent, Pow10, Scale;
    var sign := SignLength(s);
    var mid := sign + |d|;
    assert s[sign..mid] == d && s[mid..mid] == [] && s[mid..] == [];
    NoFraction(DigitsValue(d) as real);
  }

  lemma NoFraction(x: real)
    ensures DigitsValue([]) == 0 && Exponent([]) == (0, 0)
    ensures Scale(x + 0 as real / Pow10(0), 0) == x
  {
  }

  lemma IntStrtod(i: int)
    ensures Strtod(IntText(i)) == Some((i as real, |IntText(i)|))
  {
    var s := IntText(i);
    var n := if i < 0 then -i else i;
    var d := NatText(n);
    assert SignLength(s) == if i < 0 then 1 else 0;
    hide Strtod;
    assert s[SignLength(s)..] == d;
    DigitsRunAll(d, []);
    assert d + [] == d;
    NatTextValue(n);
    StrtodDigits(s, d);
  }

  lemma NumberRoundTrip(i: int, post: Bytes)
    requires -0x8000_0000 <= i <= INT_MAX && (post == [] || !InNumber(post[0]))
    ensures ParseNumber(IntText(i) + post) == Ok(i as real, post)
  {
    var t := IntText(i);
    IntTextLength(i);
    NumberRunAll(t, post, 63);
    IntStrtod(i);
    assert (t + post)[..|t|] == t && (t + post)[|t|..] == post;
  }

  // ---------- Values ----------

  /** What follows a number must not look like more of it. */
  predicate EndsNumber(post: Bytes) {
    post == [] || !InNumber(post[0])
  }

  predicate Fits(v: Json, depth: nat) {
    Printable(v) && NestsWithin(v, NESTING_LIMIT - depth)
  }

  predicate ItemsFit(items: seq<Json>, depth: nat) {
    forall i :: 0 <= i < |items| ==> Fits(items[i], depth)
  }

  predicate MembersFit(members: seq<Member>, depth: nat) {
    forall i :: 0 <= i < |members| ==> NoNul(members[i].name) && Fits(members[i].value, depth)
  }

  lemma TextStart(v: Json, d: nat, format: bool)
    requires Numbers32(v)
    ensures Text(v, d, format) != [] && SPACE < Text(v, d, format)[0] < 0xef
  {
  }

  lemma NumberStart(i: int, post: Bytes)
    ensures var s := IntText(i) + post; s != [] && (s[0] == MINUS || 48 <= s[0] <= 57)
  {
  }

  lemma LeafRoundTrip(v: Json, d: nat, format: bool, depth: nat, post: Bytes)
    requires Printable(v) && EndsNumber(post) && !v.Arr? && !v.Obj?
    ensures ParseValue(Text(v, d, format) + post, depth) == Ok(v, post)
  {
    var s := Text(v, d, format) + post;
    match v
    case Null => assert s[..4] == NULL_TEXT && s[4..] == post;
    case Bool(b) =>
      if b {
        assert s[..4] == TRUE_TEXT && s[4..] == post;
        assert s[0] == 116;
      } else {
        assert s[..5] == FALSE_TEXT && s[5..] == post;
        assert s[0] == 102;
      }
    case Num(n) =>
      NumberRoundTrip(n.Floor, post);
      NumberStart(n.Floor, post);
      NotAWord(s);
    case Str(b) =>
      QuotedRoundTrip(b, post);
      assert s[0] == QUOTE;
      NotAWord(s);
  }

  lemma NotAWord(s: Bytes)
    requires s != [] && s[0] !in {110, 102, 116}
    ensures !StartsWith(s, NULL_TEXT) && !StartsWith(s, FALSE_TEXT) && !StartsWith(s, TRUE_TEXT)
  {
    WordStart(s, NULL_TEXT);
    WordStart(s, FALSE_TEXT);
    WordStart(s, TRUE_TEXT);
  }

  lemma WordStart(s: Bytes, w: Bytes)
    requires w != []
    ensures StartsWith(s, w) ==> s[0] == w[0]
  {
    if StartsWith(s, w) {
      assert s[..|w|][0] == s[0];
    }
  }

  lemma {:induction false} ValueRoundTrip(v: Json, d: nat, format: bool, depth: nat, post: Bytes)
    requires Fits(v, depth) && EndsNumber(post)
    ensures ParseValue(Text(v, d, format) + post, depth) == Ok(v, post)
    decreases v, 1
  {
    hide ParseValue, Text, ItemsText, MembersText, ParseItems, ParseMembers, EndsNumber, ItemsFit, MembersFit;
    if v.Arr? {
      FitsInside(v, depth);
      hide Fits;
      if v.items != [] {
        ItemsRoundTrip(v.items, d + 1, format, depth + 1, [], post);
      }
      ArrayFromItems(v.items, d, format, depth, post);
    } else if v.Obj? {
      FitsInside(v, depth);
      hide Fits;
      if v.members != [] {
        MembersRoundTrip(v.members, d + 1, format, depth + 1, Lead(format), Indent(d, format), post);
      }
      ObjectFromMembers(v.members, d, format, depth, post);
    } else {
      LeafRoundTrip(v, d, format, depth, post);
    }
  }

  function Lead(format: bool): (r: Bytes)
    ensures AllBlank(r)
  {
    if format then [NEWLINE] else []
  }

  lemma FitsInside(v: Json, depth: nat)
    requires Fits(v, depth) && (v.Arr? || v.Obj?)
    ensures depth < NESTING_LIMIT && Numbers32(v)
    ensures v.Arr? ==> ItemsFit(v.items, depth + 1)
    ensures v.Obj? ==> MembersFit(v.members, depth + 1)
  {
  }

  // Arrays

  lemma ArrayFromItems(items: seq<Json>, d: nat, format: bool, depth: nat, post: Bytes)
    requires Numbers32(Arr(items)) && depth < NESTING_LIMIT
    requires items != [] ==>
               ParseItems([] + (ItemsText(items, d + 1, format) + ([CLOSE_BRACKET] + post)), depth + 1)
               == Ok(items, post)
    ensures ParseValue(Text(Arr(items), d, format) + post, depth) == Ok(Arr(items), post)
  {
    hide ParseItems, ParseValue, Text, ItemsText;
    var inner := ItemsText(items, d + 1, format);
    ArrayText(items, d, format, post);
    if items == [] {
      EmptyArray(depth, post);
    } else {
      ItemsStart(items, d + 1, format);
      assert [] + (inner + ([CLOSE_BRACKET] + post)) == inner + ([CLOSE_BRACKET] + post);
      OpenArray(inner + ([CLOSE_BRACKET] + post), items, depth, post);
    }
  }

  lemma ArrayText(items: seq<Json>, d: nat, format: bool, post: Bytes)
    requires Numbers32(Arr(items))
    ensures Text(Arr(items), d, format) + post
            == [OPEN_BRACKET] + (ItemsText(items, d + 1, format) + ([CLOSE_BRACKET] + post))
    ensures items == [] ==> Text(Arr(items), d, format) + post == [OPEN_BRACKET] + ([CLOSE_BRACKET] + post)
  {
    var inner := ItemsText(items, d + 1, format);
    assert items == [] ==> inner == [];
    hide ItemsText;
    assert Text(Arr(items), d, format) == [OPEN_BRACKET] + inner + [CLOSE_BRACKET];
    hide Text;
    Regroup([], [OPEN_BRACKET], inner, [CLOSE_BRACKET], post);
    assert [] + [OPEN_BRACKET] + inner + [CLOSE_BRACKET] + post == [OPEN_BRACKET] + inner + [CLOSE_BRACKET] + post;
    assert [] + ([CLOSE_BRACKET] + post) == [CLOSE_BRACKET] + post;
  }

  lemma EmptyArray(depth: nat, post: Bytes)
    requires depth < NESTING_LIMIT
    ensures ParseValue([OPEN_BRACKET] + ([CLOSE_BRACKET] + post), depth) == Ok(Arr([]), post)
  {
    var s := [OPEN_BRACKET] + ([CLOSE_BRACKET] + post);
    NotAWord(s);
    assert s[1..] == [CLOSE_BRACKET] + post && ([CLOSE_BRACKET] + post)[1..] == post;
  }

  lemma OpenArray(t: Bytes, items: seq<Json>, depth: nat, post: Bytes)
    requires depth < NESTING_LIMIT && t != [] && t[0] > SPACE && t[0] != CLOSE_BRACKET
    requires ParseItems(t, depth + 1) == Ok(items, post)
    ensures ParseValue([OPEN_BRACKET] + t, depth) == Ok(Arr(items), post)
  {
    hide ParseItems;
    var s := [OPEN_BRACKET] + t;
    NotAWord(s);
    assert s[1..] == t && SkipWs(t) == t;
  }

  lemma ItemsStart(items: seq<Json>, d: nat, format: bool)
    requires items != [] && forall i :: 0 <= i < |items| ==> Numbers32(items[i])
    ensures var t := ItemsText(items, d, format);
            t != [] && t[0] > SPACE && t[0] != CLOSE_BRACKET
  {
    TextStart(items[0], d, format);
  }

  lemma LastItem(blanks: Bytes, text: Bytes, v: Json, depth: nat, post: Bytes)
    requires AllBlank(blanks) && text != [] && text[0] > SPACE
    requires ParseValue(text + ([CLOSE_BRACKET] + post), depth) == Ok(v, [CLOSE_BRACKET] + post)
    ensures ParseItems(blanks + (text + ([CLOSE_BRACKET] + post)), depth) == Ok([v], post)
  {
    hide ParseValue;
    SkipBlanks(blanks, text + ([CLOSE_BRACKET] + post));
    assert ([CLOSE_BRACKET] + post)[1..] == post;
  }

  lemma NextItem(blanks: Bytes, text: Bytes, v: Json, rest: Bytes, more: seq<Json>, depth: nat, post: Bytes)
    requires AllBlank(blanks) && text != [] && text[0] > SPACE
    requires ParseValue(text + ([COMMA] + rest), depth) == Ok(v, [COMMA] + rest)
    requires ParseItems(rest, depth) == Ok(more, post)
    ensures ParseItems(blanks + (text + ([COMMA] + rest)), depth) == Ok([v] + more, post)
  {
    hide ParseValue;
    SkipBlanks(blanks, text + ([COMMA] + rest));
    assert ([COMMA] + rest)[1..] == rest;
  }

  function Gap(format: bool): (r: Bytes)
    ensures AllBlank(r)
  {
    if format then [SPACE] else []
  }

  lemma ItemsTextNext(items: seq<Json>, d: nat, format: bool, post: Bytes)
    requires |items| > 1 && forall i :: 0 <= i < |items| ==> Numbers32(items[i])
    ensures ItemsText(items, d, format) + ([CLOSE_BRACKET] + post) ==
            Text(items[0], d, format)
            + ([COMMA] + (Gap(format) + (ItemsText(items[1..], d, format) + ([CLOSE_BRACKET] + post))))
  {
    hide Text;
    var a, b := Text(items[0], d, format), ItemsText(items[1..], d, format);
    var sep: Bytes := if format then [COMMA, SPACE] else [COMMA];
    assert ItemsText(items, d, format) == a + sep + b;
    hide ItemsText;
    assert sep == [COMMA] + Gap(format);
    Regroup(a, [COMMA], Gap(format), b, [CLOSE_BRACKET] + post);
  }

  lemma Regroup(a: Bytes, b: Bytes, c: Bytes, d: Bytes, e: Bytes)
    ensures a + (b + c) + d + e == a + (b + (c + (d + e)))
    ensures a + b + c + d + e == a + (b + (c + (d + e)))
  {
  }

  lemma {:induction false} ItemsRoundTrip(items: seq<Json>, d: nat, format: bool, depth: nat, blanks: Bytes,
                                          post: Bytes)
    requires items != [] && ItemsFit(items, depth) && AllBlank(blanks)
    ensures ParseItems(blanks + (ItemsText(items, d, format) + ([CLOSE_BRACKET] + post)), depth) == Ok(items, post)
    decreases items, 0
  {
    hide ParseValue, ParseItems, Text, AllBlank, Gap;
    var v := items[0];
    assert Fits(v, depth);
    TextStart(v, d, format);
    if |items| == 1 {
      ValueRoundTrip(v, d, format, depth, [CLOSE_BRACKET] + post);
      LastItem(blanks, Text(v, d, format), v, depth, post);
      assert items == [v];
    } else {
      var rest := Gap(format) + (ItemsText(items[1..], d, format) + ([CLOSE_BRACKET] + post));
      ItemsRoundTrip(items[1..], d, format, depth, Gap(format), post);
      ValueRoundTrip(v, d, format, depth, [COMMA] + rest);
      NextItem(blanks, Text(v, d, format), v, rest, items[1..], depth, post);
      ItemsTextNext(items, d, format, post);
      assert items == [v] + items[1..];
    }
  }

  // Objects

  lemma MemberParts(lead: Bytes, quoted: Bytes, name: Bytes, gap: Bytes, text: Bytes, v: Json, depth: nat, post: Bytes)
    requires AllBlank(lead) && AllBlank(gap) && quoted != [] && quoted[0] == QUOTE && text != [] && text[0] > SPACE
    requires var afterName := [COLON] + (gap + (text + post)); ParseString(quoted + afterName) == Ok(name, afterName)
    requires ParseValue(text + post, depth) == Ok(v, post)
    ensures ParseMember(lead + (quoted + ([COLON] + (gap + (text + post)))), depth) == Ok(Member(name, v), post)
  {
    hide ParseString, ParseValue;
    var afterName := [COLON] + (gap + (text + post));
    SkipBlanks(lead, quoted + afterName);
    assert SkipWs(afterName) == afterName && afterName[1..] == gap + (text + post);
    SkipBlanks(gap, text + post);
  }

  function ValueGap(format: bool): (r: Bytes)
    ensures AllBlank(r)
  {
    if format then [TAB] else []
  }

  function Indent(d: nat, format: bool): (r: Bytes)
    ensures AllBlank(r)
  {
    if format then Tabs(d) else []
  }

  lemma MemberTextParts(m: Member, d: nat, format: bool, blanks: Bytes, post: Bytes)
    requires Numbers32(m.value)
    ensures blanks + (MemberText(m, d, format) + post) ==
            (blanks + Indent(d, format)) +
            (Quoted(m.name) + ([COLON] + (ValueGap(format) + (Text(m.value, d, format) + post))))
  {
    var q, t := Quoted(m.name), Text(m.value, d, format);
    assert MemberText(m, d, format) == Indent(d, format) + q + [COLON] + ValueGap(format) + t;
    hide Text, Quoted, MemberText, Indent, ValueGap;
    RegroupMember(blanks, Indent(d, format), q, [COLON], ValueGap(format), t, post);
  }

  lemma RegroupMember(a: Bytes, i: Bytes, q: Bytes, c: Bytes, g: Bytes, t: Bytes, post: Bytes)
    ensures a + (i + q + c + g + t + post) == (a + i) + (q + (c + (g + (t + post))))
  {
    assert i + q + c + g + t + post == i + (q + (c + (g + (t + post))));
  }

  lemma {:induction false} MemberRoundTrip(m: Member, d: nat, format: bool, depth: nat, blanks: Bytes, post: Bytes)
    requires NoNul(m.name) && Fits(m.value, depth) && AllBlank(blanks) && EndsNumber(post)
    ensures ParseMember(blanks + (MemberText(m, d, format) + post), depth) == Ok(m, post)
    decreases m, 2
  {
    var text := Text(m.value, d, format);
    var lead := blanks + Indent(d, format);
    assert AllBlank(lead);
    QuotedStart(m.name);
    hide ParseValue, ParseMember, ParseString, MemberText, Text, Quoted, AllBlank, Indent, ValueGap, EndsNumber;
    ValueRoundTrip(m.value, d, format, depth, post);
    TextStart(m.value, d, format);
    QuotedRoundTrip(m.name, [COLON] + (ValueGap(format) + (text + post)));
    MemberParts(lead, Quoted(m.name), m.name, ValueGap(format), text, m.value, depth, post);
    MemberTextParts(m, d, format, blanks, post);
  }

  lemma QuotedStart(b: Bytes)
    ensures Quoted(b) != [] && Quoted(b)[0] == QUOTE
  {
  }

  lemma LastMember(s: Bytes, m: Member, blanks: Bytes, depth: nat, post: Bytes)
    requires AllBlank(blanks) && ParseMember(s, depth) == Ok(m, blanks + ([CLOSE_BRACE] + post))
    ensures ParseMembers(s, depth) == Ok([m], post)
  {
    hide ParseMember;
    SkipBlanks(blanks, [CLOSE_BRACE] + post);
    assert ([CLOSE_BRACE] + post)[1..] == post;
  }

  lemma NextMember(s: Bytes, m: Member, rest: Bytes, more: seq<Member>, depth: nat, post: Bytes)
    requires ParseMember(s, depth) == Ok(m, [COMMA] + rest) && ParseMembers(rest, depth) == Ok(more, post)
    ensures ParseMembers(s, depth) == Ok([m] + more, post)
  {
    hide ParseMember;
    assert SkipWs([COMMA] + rest) == [COMMA] + rest && ([COMMA] + rest)[1..] == rest;
  }

  lemma MembersTextLast(members: seq<Member>, d: nat, format: bool, tail: Bytes)
    requires |members| == 1 && Numbers32(members[0].value)
    ensures MembersText(members, d, format) + tail == MemberText(members[0], d, format) + (Lead(format) + tail)
  {
    assert MembersText(members[1..], d, format) == [];
    hide MemberText;
  }

  lemma MembersTextNext(members: seq<Member>, d: nat, format: bool, tail: Bytes)
    requires |members| > 1 && forall i :: 0 <= i < |members| ==> Numbers32(members[i].value)
    ensures MembersText(members, d, format) + tail ==
            MemberText(members[0], d, format)
            + ([COMMA] + (Lead(format) + (MembersText(members[1..], d, format) + tail)))
  {
    hide MemberText;
    var a, b := MemberText(members[0], d, format), MembersText(members[1..], d, format);
    assert MembersText(members, d, format) == a + [COMMA] + Lead(format) + b;
    hide MembersText, Lead;
    Regroup(a, [COMMA], Lead(format), b, tail);
  }

  lemma {:induction false} MembersRoundTrip(members: seq<Member>, d: nat, format: bool, depth: nat,
                                            blanks: Bytes, closing: Bytes, post: Bytes)
    requires members != [] && MembersFit(members, depth) && AllBlank(blanks) && AllBlank(closing)
    ensures ParseMembers(blanks + (MembersText(members, d, format) + (closing + ([CLOSE_BRACE] + post))), depth)
              == Ok(members, post)
    decreases members, 0
  {
    hide ParseMember, ParseMembers, MemberText, MembersText, SkipWs, Lead;
    var m := members[0];
    var tail := closing + ([CLOSE_BRACE] + post);
    assert NoNul(m.name) && Fits(m.value, depth);
    if |members| == 1 {
      LastTail(closing, format, post);
      MemberRoundTrip(m, d, format, depth, blanks, Lead(format) + tail);
      MembersTextLast(members, d, format, tail);
      assert Lead(format) + tail == (Lead(format) + closing) + ([CLOSE_BRACE] + post);
      LastMember(blanks + (MembersText(members, d, format) + tail), m, Lead(format) + closing, depth, post);
      assert members == [m];
    } else {
      var rest := Lead(format) + (MembersText(members[1..], d, format) + tail);
      MembersRoundTrip(members[1..], d, format, depth, Lead(format), closing, post);
      MemberRoundTrip(m, d, format, depth, blanks, [COMMA] + rest);
      MembersTextNext(members, d, format, tail);
      NextMember(blanks + (MembersText(members, d, format) + tail), m, rest, members[1..], depth, post);
      assert members == [m] + members[1..];
    }
  }

  lemma LastTail(closing: Bytes, format: bool, post: Bytes)
    requires AllBlank(closing)
    ensures AllBlank(Lead(format) + closing)
    ensures EndsNumber(Lead(format) + (closing + ([CLOSE_BRACE] + post)))
  {
    var t := Lead(format) + (closing + ([CLOSE_BRACE] + post));
    assert |t| > 0 && (t[0] <= SPACE || t[0] == CLOSE_BRACE);
  }

  lemma ObjectFromMembers(members: seq<Member>, d: nat, format: bool, depth: nat, post: Bytes)
    requires Numbers32(Obj(members)) && depth < NESTING_LIMIT
    requires members != [] ==>
               ParseMembers(
                 Lead(format) + (MembersText(members, d + 1, format) + (Indent(d, format) + ([CLOSE_BRACE] + post))),
                 depth + 1)
               == Ok(members, post)
    ensures ParseValue(Text(Obj(members), d, format) + post, depth) == Ok(Obj(members), post)
  {
    hide ParseMembers, ParseValue, Text, MembersText, Lead, Indent;
    var tail := Indent(d, format) + ([CLOSE_BRACE] + post);
    ObjectTextParts(members, d, format, post);
    if members == [] {
      EmptyObject(Lead(format), Indent(d, format), depth, post);
    } else {
      MembersSkip(members, d + 1, format, tail, depth + 1);
      OpenObject(Lead(format) + (MembersText(members, d + 1, format) + tail), members, depth, post);
    }
  }

  lemma ObjectTextParts(members: seq<Member>, d: nat, format: bool, post: Bytes)
    requires Numbers32(Obj(members))
    ensures Text(Obj(members), d, format) + post ==
            [OPEN_BRACE]
            + (Lead(format) + (MembersText(members, d + 1, format) + (Indent(d, format) + ([CLOSE_BRACE] + post))))
    ensures members == [] ==>
              Text(Obj(members), d, format) + post
              == [OPEN_BRACE] + (Lead(format) + (Indent(d, format) + ([CLOSE_BRACE] + post)))
  {
    var inner := MembersText(members, d + 1, format);
    ObjectTextForm(members, d, format);
    hide Text, Lead, Indent, MembersText;
    var lead, indent := Lead(format), Indent(d, format);
    Regroup([OPEN_BRACE], lead, inner, indent, [CLOSE_BRACE]);
    Regroup([OPEN_BRACE], lead, inner, indent, [CLOSE_BRACE] + post);
    Regrouped([OPEN_BRACE] + lead + inner + indent, [CLOSE_BRACE], post);
    NothingBefore(inner, indent + ([CLOSE_BRACE] + post));
  }

  lemma NothingBefore(a: Bytes, b: Bytes)
    ensures a == [] ==> a + b == b
  {
  }

  lemma ObjectTextForm(members: seq<Member>, d: nat, format: bool)
    requires Numbers32(Obj(members))
    ensures Text(Obj(members), d, format) ==
            [OPEN_BRACE] + Lead(format) + MembersText(members, d + 1, format) + Indent(d, format) + [CLOSE_BRACE]
    ensures members == [] ==> MembersText(members, d + 1, format) == []
  {
    assert members == [] ==> MembersText(members, d + 1, format) == [];
    hide MembersText;
  }

  lemma EmptyObject(lead: Bytes, closing: Bytes, depth: nat, post: Bytes)
    requires depth < NESTING_LIMIT && AllBlank(lead) && AllBlank(closing)
    ensures ParseValue([OPEN_BRACE] + (lead + (closing + ([CLOSE_BRACE] + post))), depth) == Ok(Obj([]), post)
  {
    var s := [OPEN_BRACE] + (lead + (closing + ([CLOSE_BRACE] + post)));
    NotAWord(s);
    assert s[1..] == (lead + closing) + ([CLOSE_BRACE] + post);
    SkipBlanks(lead + closing, [CLOSE_BRACE] + post);
    assert ([CLOSE_BRACE] + post)[1..] == post;
  }

  lemma OpenObject(t: Bytes, members: seq<Member>, depth: nat, post: Bytes)
    requires depth < NESTING_LIMIT && SkipWs(t) != [] && SkipWs(t)[0] == QUOTE
    requires ParseMembers(SkipWs(t), depth + 1) == Ok(members, post)
    ensures ParseValue([OPEN_BRACE] + t, depth) == Ok(Obj(members), post)
  {
    hide ParseMembers;
    var s := [OPEN_BRACE] + t;
    NotAWord(s);
    assert s[1..] == t;
  }

  lemma MembersStart(members: seq<Member>, d: nat, format: bool) returns (more: Bytes)
    requires members != [] && forall i :: 0 <= i < |members| ==> Numbers32(members[i].value)
    ensures MembersText(members, d, format) == Indent(d, format) + more
    ensures more != [] && more[0] == QUOTE
  {
    QuotedStart(members[0].name);
    hide Quoted, Text;
    more := MembersText(members, d, format)[|Indent(d, format)|..];
    MemberTextParts(members[0], d, format, [], []);
    assert MemberText(members[0], d, format)[|Indent(d, format)|] == QUOTE;
  }

  /** Skipping the blanks before the first name does not change what the members parse to. */
  lemma MembersSkip(members: seq<Member>, d: nat, format: bool, tail: Bytes, depth: nat)
    requires members != [] && forall i :: 0 <= i < |members| ==> Numbers32(members[i].value)
    ensures var s := Lead(format) + (MembersText(members, d, format) + tail);
            && SkipWs(s) != [] && SkipWs(s)[0] == QUOTE
            && ParseMembers(SkipWs(s), depth) == ParseMembers(s, depth)
  {
    hide MembersText, ParseMembers, Lead, Indent, AllBlank, SkipWs;
    var more := MembersStart(members, d, format);
    var s := Lead(format) + (MembersText(members, d, format) + tail);
    var blanks := Lead(format) + Indent(d, format);
    BlanksJoin(Lead(format), Indent(d, format));
    assert s == blanks + (more + tail);
    SkipBlanks(blanks, more + tail);
    BlanksJoin([], []);
    SkipBlanks([], more + tail);
    assert [] + (more + tail) == more + tail;
    SkipTwice(s, depth);
  }

  lemma BlanksJoin(a: Bytes, b: Bytes)
    ensures AllBlank([]) && (AllBlank(a) && AllBlank(b) ==> AllBlank(a + b))
  {
  }

  lemma SkipTwice(s: Bytes, depth: nat)
    requires SkipWs(SkipWs(s)) == SkipWs(s)
    ensures ParseMembers(SkipWs(s), depth) == ParseMembers(s, depth)
  {
    hide ParseString, ParseValue, SkipWs;
    assert ParseMember(SkipWs(s), depth) == ParseMember(s, depth);
  }

  // ---------- Whole texts ----------

  /**
    * For every tree of null, booleans, 32-bit integers, strings without zero bytes, arrays and objects nested at most
    * 1000 deep: parsing its printed text, formatted or not, terminated or not, gives the tree back.
    */
  lemma PrintParse(v: Json, format: bool)
    requires Printable(v) && NestsWithin(v, NESTING_LIMIT)
    ensures Parse(Text(v, 0, format), false) == Some(v)
    ensures Parse(Text(v, 0, format) + [0], true) == Some(v)
  {
    assert Fits(v, 0);
    hide Text, ParseValue, StringsNoNul, Numbers32, NestsWithin;
    var t := Text(v, 0, format);
    TextStart(v, 0, format);
    ValueRoundTrip(v, 0, format, 0, []);
    NoBom(t);
    assert t + [] == t && SkipWs(t) == t;
    ValueRoundTrip(v, 0, format, 0, [0]);
    NoBom(t + [0]);
    assert SkipWs(t + [0]) == t + [0];
  }

  lemma NoBom(s: Bytes)
    requires s != [] && s[0] < 0xef
    ensures SkipBom(s) == s
  {
    if |s| > 4 {
      assert s[..3][0] == s[0];
    }
  }

  /** Printing into a growing buffer and parsing the bytes found there gives the tree back, or the text is over 2 GB. */
  method PrintThenParse(v: Json, format: bool) returns (printed: bool, back: Option<Json>)
    requires Printable(v) && NestsWithin(v, NESTING_LIMIT)
    ensures printed ==> back == Some(v)
    ensures !printed ==> |Text(v, 0, format)| + 2 > INT_MAX
  {
    var writer := new JsonWriter.PrintBuffer(256, false, format);
    var ok, text := writer.Print(v);
    if !ok {
      return false, None;
    }
    PrintParse(v, format);
    var reader := new JsonReader.ParseBuffer(text + [0]);
    back := reader.ParseDocument(true);
    return true, back;
  }

  // ---------- Unicode escapes ----------

  function HexText(n: nat): Bytes
    requires n < 0x10000
  {
    [HexDigit(n / 4096), HexDigit(n / 256 % 16), HexDigit(n / 16 % 16), HexDigit(n % 16)]
  }

  lemma HexTextValue(n: nat, pre: Bytes, post: Bytes)
    requires n < 0x10000
    ensures Hex4(pre + HexText(n) + post, |pre|) == n
  {
    var s := pre + HexText(n) + post;
    assert s[|pre|] == HexText(n)[0] && s[|pre| + 1] == HexText(n)[1];
    assert s[|pre| + 2] == HexText(n)[2] && s[|pre| + 3] == HexText(n)[3];
    HexDigitValue(n / 4096);
    HexDigitValue(n / 256 % 16);
    HexDigitValue(n / 16 % 16);
    HexDigitValue(n % 16);
    assert n / 256 == n / 4096 * 16 + n / 256 % 16;
    assert n / 16 == n / 256 * 16 + n / 16 % 16;
  }

  lemma HexDigitValue(d: nat)
    requires d < 16
    ensures HexValue(HexDigit(d)) == Some(d)
  {
  }

  /** The escape of a code point: one \uXXXX, or a surrogate pair above the basic plane. */
  function Literal(cp: nat): Bytes
    requires cp <= 0x10ffff
  {
    if cp < 0x10000 then [BACKSLASH, LETTER_U] + HexText(cp)
    else
      [BACKSLASH, LETTER_U] + HexText(0xd800 + (cp - 0x10000) / 1024)
      + ([BACKSLASH, LETTER_U] + HexText(0xdc00 + (cp - 0x10000) % 1024))
  }

  lemma PlainLiteral(cp: nat, post: Bytes)
    requires cp < 0x10000 && !(0xd800 <= cp <= 0xdfff) && post != []
    ensures Utf16Literal(Literal(cp) + post) == Some((Utf8(cp), 6))
  {
    var u := [BACKSLASH, LETTER_U];
    HexTextValue(cp, u, post);
    assert |HexText(cp)| == 4;
    hide Utf8, Hex4, HexText;
    assert Literal(cp) + post == u + HexText(cp) + post;
  }

  lemma PairText(h: Bytes, l: Bytes, post: Bytes)
    requires |h| == 4 && |l| == 4
    ensures var u := [BACKSLASH, LETTER_U]; var s := u + h + (u + l) + post;
            && s == u + h + (u + l + post) && s == (u + h + u) + l + post
            && |s| == 12 + |post| && s[6] == BACKSLASH && s[7] == LETTER_U
  {
  }

  lemma PairLiteral(cp: nat, post: Bytes)
    requires 0x10000 <= cp <= 0x10ffff && post != []
    ensures Utf16Literal(Literal(cp) + post) == Some((Utf8(cp), 12))
  {
    hide Utf8, Hex4, HexText, Utf16Literal;
    var u: Bytes := [BACKSLASH, LETTER_U];
    var hi, lo := Surrogates(cp);
    var h, l := HexText(hi), HexText(lo);
    HexTextLength(hi);
    HexTextLength(lo);
    HexTextValue(hi, u, u + l + post);
    HexTextValue(lo, u + h + u, post);
    PairText(h, l, post);
    assert Literal(cp) + post == u + h + (u + l) + post;
    hide Literal;
    PairAt(Literal(cp) + post, hi, lo);
  }

  lemma HexTextLength(n: nat)
    requires n < 0x10000
    ensures |HexText(n)| == 4
  {
  }

  lemma PairAt(s: Bytes, hi: nat, lo: nat)
    requires |s| > 12 && s[6] == BACKSLASH && s[7] == LETTER_U && Hex4(s, 2) == hi && Hex4(s, 8) == lo
    requires 0xd800 <= hi <= 0xdbff && 0xdc00 <= lo <= 0xdfff
    ensures Utf16Literal(s) == Some((Utf8(0x10000 + (hi - 0xd800) * 1024 + (lo - 0xdc00)), 12))
  {
    hide Utf8, Hex4;
  }

  lemma Surrogates(cp: nat) returns (hi: nat, lo: nat)
    requires 0x10000 <= cp <= 0x10ffff
    ensures hi == 0xd800 + (cp - 0x10000) / 1024 && lo == 0xdc00 + (cp - 0x10000) % 1024
    ensures 0xd800 <= hi <= 0xdbff && 0xdc00 <= lo <= 0xdfff
    ensures 0x10000 + (hi - 0xd800) * 1024 + (lo - 0xdc00) == cp
  {
    hi, lo := 0xd800 + (cp - 0x10000) / 1024, 0xdc00 + (cp - 0x10000) % 1024;
  }

  /** Every code point that is no surrogate is decoded from its escape to its UTF-8 bytes. */
  lemma LiteralDecodes(cp: nat, post: Bytes)
    requires cp <= 0x10ffff && !(0xd800 <= cp <= 0xdfff) && post != []
    ensures Utf16Literal(Literal(cp) + post) == Some((Utf8(cp), |Literal(cp)|))
  {
    hide Utf8, Utf16Literal;
    if cp < 0x10000 {
      PlainLiteral(cp, post);
    } else {
      PairLiteral(cp, post);
    }
  }

  /** The code point of a UTF-8 sequence. */
  function Utf8Value(s: Bytes): Option<nat> {
    if |s| == 1 && s[0] < 0x80 then Some(s[0])
    else if |s| == 2 && 0xc0 <= s[0] < 0xe0 && 0x80 <= s[1] < 0xc0 then Some(Bits(s[0], 0xc0) * 64 + Bits(s[1], 0x80))
    else if |s| == 3 && 0xe0 <= s[0] < 0xf0 && 0x80 <= s[1] < 0xc0 && 0x80 <= s[2] < 0xc0 then
      Some(Bits(s[0], 0xe0) * 4096 + Bits(s[1], 0x80) * 64 + Bits(s[2], 0x80))
    else if |s| == 4 && 0xf0 <= s[0] < 0xf8 && 0x80 <= s[1] < 0xc0 && 0x80 <= s[2] < 0xc0 && 0x80 <= s[3] < 0xc0 then
      Some(Bits(s[0], 0xf0) * 262144 + Bits(s[1], 0x80) * 4096 + Bits(s[2], 0x80) * 64 + Bits(s[3], 0x80))
    else None
  }

  function Bits(b: Byte, mark: nat): nat
    requires b >= mark
  {
    b as int - mark
  }

  lemma Utf8RoundTrip(cp: nat)
    requires cp <= 0x10ffff
    ensures Utf8Value(Utf8(cp)) == Some(cp)
  {
    assert cp / 64 == cp / 4096 * 64 + cp / 64 % 64;
    assert cp / 4096 == cp / 262144 * 64 + cp / 4096 % 64;
  }
}

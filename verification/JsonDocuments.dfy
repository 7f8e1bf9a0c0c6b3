/** The texts of RFC 8259, with blanks wherever it allows them, and that the parser reads them as they are meant. */
module JsonDocuments {
  import opened Options
  import opened JsonText
  import opened JsonParse
  import opened JsonRoundTrip
  import opened JsonGrammar
  import JsonReader

  /** A value as it is written. The blanks of an array or object are those between the brackets if it is empty. */
  datatype Doc =
    | NullDoc
    | BoolDoc(b: bool)
    | NumDoc(n: Number)
    | StrDoc(units: seq<Unit>)
    | ArrDoc(blanks: Bytes, items: seq<Item>)
    | ObjDoc(blanks: Bytes, members: seq<Entry>)

  datatype Item = Item(before: Bytes, value: Doc, after: Bytes)

  datatype Entry = Entry(before: Bytes, name: seq<Unit>, behind: Bytes, ahead: Bytes, value: Doc, after: Bytes)

  /** The text of a value, followed by `post`. */
  function Written(v: Doc, post: Bytes): Bytes
    decreases v, 1
  {
    match v
    case NullDoc => [0x6e, 0x75, 0x6c, 0x6c] + post
    case BoolDoc(b) => if b then [0x74, 0x72, 0x75, 0x65] + post else [0x66, 0x61, 0x6c, 0x73, 0x65] + post
    case NumDoc(n) => NumberText(n) + post
    case StrDoc(units) => [0x22] + StringText(units, post)
    case ArrDoc(blanks, items) =>
      [0x5b] + if items == [] then blanks + ([0x5d] + post) else WrittenItems(items, [0x5d] + post)
    case ObjDoc(blanks, members) =>
      [0x7b] + if members == [] then blanks + ([0x7d] + post) else WrittenEntries(members, [0x7d] + post)
  }

  /** The items with commas between them, followed by the closing bracket and what comes behind it. */
  function WrittenItems(items: seq<Item>, tail: Bytes): Bytes
    requires items != []
    decreases items, 0
  {
    var i := items[0];
    var rest := if |items| == 1 then tail else [0x2c] + WrittenItems(items[1..], tail);
    i.before + Written(i.value, i.after + rest)
  }

  function WrittenEntries(members: seq<Entry>, tail: Bytes): Bytes
    requires members != []
    decreases members, 0
  {
    EntryText(members[0], if |members| == 1 then tail else [0x2c] + WrittenEntries(members[1..], tail))
  }

  /** A member, followed by what comes behind it. */
  function EntryText(m: Entry, rest: Bytes): Bytes
    decreases m, 2
  {
    m.before + ([0x22] + StringText(m.name, m.behind + ([0x3a] + (m.ahead + Written(m.value, m.after + rest)))))
  }

  /** The parts are those of the grammar, and arrays and objects nest at most `limit` deep. */
  ghost predicate DocOk(v: Doc, limit: int) {
    match v
    case NumDoc(n) => NumberOk(n)
    case StrDoc(units) => UnitsOk(units)
    case ArrDoc(blanks, items) =>
      limit > 0 && AllBlank(blanks) && forall i :: 0 <= i < |items| ==>
        AllBlank(items[i].before) && AllBlank(items[i].after) && DocOk(items[i].value, limit - 1)
    case ObjDoc(blanks, members) =>
      limit > 0 && AllBlank(blanks) && forall i :: 0 <= i < |members| ==> var m := members[i];
        && AllBlank(m.before) && AllBlank(m.behind) && AllBlank(m.ahead) && AllBlank(m.after)
        && UnitsOk(m.name) && DocOk(m.value, limit - 1)
    case _ => true
  }

  ghost function Meaning(v: Doc, limit: int): Json
    requires DocOk(v, limit)
  {
    match v
    case NullDoc => Null
    case BoolDoc(b) => Bool(b)
    case NumDoc(n) => Num(NumberMeaning(n))
    case StrDoc(units) => Str(StringMeaning(units))
    case ArrDoc(_, items) => Arr(seq(|items|, i requires 0 <= i < |items| => Meaning(items[i].value, limit - 1)))
    case ObjDoc(_, members) =>
      Obj(seq(|members|, i requires 0 <= i < |members| =>
                Member(StringMeaning(members[i].name), Meaning(members[i].value, limit - 1))))
  }

  ghost predicate ItemsOk(items: seq<Item>, limit: int) {
    forall i :: 0 <= i < |items| ==>
      AllBlank(items[i].before) && AllBlank(items[i].after) && DocOk(items[i].value, limit)
  }

  ghost predicate EntriesOk(members: seq<Entry>, limit: int) {
    forall i :: 0 <= i < |members| ==> var m := members[i];
      && AllBlank(m.before) && AllBlank(m.behind) && AllBlank(m.ahead) && AllBlank(m.after)
      && UnitsOk(m.name) && DocOk(m.value, limit)
  }

  ghost function ItemsMeaning(items: seq<Item>, limit: int): seq<Json>
    requires ItemsOk(items, limit)
  {
    seq(|items|, i requires 0 <= i < |items| => Meaning(items[i].value, limit))
  }

  ghost function EntriesMeaning(members: seq<Entry>, limit: int): seq<Member>
    requires EntriesOk(members, limit)
  {
    seq(|members|, i requires 0 <= i < |members| =>
          Member(StringMeaning(members[i].name), Meaning(members[i].value, limit)))
  }

  // ---------- How texts begin ----------

  /** A value begins with a visible byte that closes nothing. */
  lemma WrittenStart(v: Doc, limit: int, post: Bytes)
    requires DocOk(v, limit)
    ensures var s := Written(v, post); s != [] && SPACE < s[0] < 0xef && s[0] !in {CLOSE_BRACKET, CLOSE_BRACE}
  {
    match v
    case NumDoc(n) => NumberStarts(n);
    case _ =>
  }

  lemma NumberStarts(n: Number)
    requires NumberOk(n)
    ensures var s := NumberText(n); s != [] && (s[0] == MINUS || 48 <= s[0] <= 57)
  {
    assert n.minus || NumberText(n)[0] == DigitChar(n.whole[0]);
  }

  lemma {:induction false} SkipsOnce(s: Bytes)
    ensures SkipWs(SkipWs(s)) == SkipWs(s)
  {
    if |s| >= 2 && s[0] <= SPACE {
      SkipsOnce(s[1..]);
    }
  }

  /** Blanks, or the byte that closes or separates, end a number. */
  lemma TailEnds(blanks: Bytes, tail: Bytes)
    requires AllBlank(blanks) && tail != [] && tail[0] in {COMMA, CLOSE_BRACKET, CLOSE_BRACE}
    ensures EndsNumber(blanks + tail) && SkipWs(blanks + tail) == tail
  {
    SkipBlanks(blanks, tail);
    var s := blanks + tail;
    assert s[0] <= SPACE || s[0] == tail[0];
  }

  // ---------- Leaves ----------

  lemma WordParses(v: Doc, depth: nat, post: Bytes)
    requires v.NullDoc? || v.BoolDoc?
    ensures ParseValue(Written(v, post), depth) == Ok(if v.NullDoc? then Null else Bool(v.b), post)
  {
    var s := Written(v, post);
    match v
    case NullDoc => assert s[..4] == NULL_TEXT && s[4..] == post;
    case BoolDoc(b) =>
      if b {
        assert s[..4] == TRUE_TEXT && s[4..] == post;
        assert s[0] == 116;
      } else {
        assert s[..5] == FALSE_TEXT && s[5..] == post;
        assert s[0] == 102;
      }
  }

  lemma StringValueParses(units: seq<Unit>, depth: nat, post: Bytes)
    requires UnitsOk(units)
    ensures ParseValue([0x22] + StringText(units, post), depth) == Ok(Str(StringMeaning(units)), post)
  {
    hide StringText, StringMeaning, UnitsOk, ParseString;
    var s := [0x22] + StringText(units, post);
    StringParses(units, post);
    NotAWord(s);
    hide StartsWith;
  }

  lemma NumberValueParses(n: Number, depth: nat, post: Bytes)
    requires NumberOk(n) && EndsNumber(post)
    ensures ParseValue(NumberText(n) + post, depth) == Ok(Num(NumberMeaning(n)), post)
  {
    hide NumberText, NumberMeaning, NumberOk, ParseNumber, EndsNumber;
    var s := NumberText(n) + post;
    NumberStarts(n);
    NumberParses(n, post);
    NotAWord(s);
    hide StartsWith;
  }

  // ---------- Arrays ----------

  lemma EmptyArrayParses(blanks: Bytes, depth: nat, post: Bytes)
    requires AllBlank(blanks) && depth < NESTING_LIMIT
    ensures ParseValue([0x5b] + (blanks + ([0x5d] + post)), depth) == Ok(Arr([]), post)
  {
    var s := [0x5b] + (blanks + ([0x5d] + post));
    NotAWord(s);
    SkipBlanks(blanks, [0x5d] + post);
    assert s[1..] == blanks + ([0x5d] + post) && ([0x5d] + post)[1..] == post;
    hide StartsWith, ParseItems;
  }

  lemma ArrayParses(t: Bytes, items: seq<Json>, depth: nat, post: Bytes)
    requires depth < NESTING_LIMIT && SkipWs(t) != [] && SkipWs(t)[0] != CLOSE_BRACKET
    requires ParseItems(t, depth + 1) == Ok(items, post)
    ensures ParseValue([0x5b] + t, depth) == Ok(Arr(items), post)
  {
    var s := [0x5b] + t;
    NotAWord(s);
    assert s[1..] == t;
    SkipsOnce(t);
    hide StartsWith, SkipWs;
    assert ParseItems(SkipWs(t), depth + 1) == ParseItems(t, depth + 1) by {
      ItemsSkip(t, depth + 1);
    }
    hide ParseItems;
  }

  lemma ItemsSkip(t: Bytes, depth: nat)
    requires SkipWs(SkipWs(t)) == SkipWs(t)
    ensures ParseItems(SkipWs(t), depth) == ParseItems(t, depth)
  {
    hide ParseValue, SkipWs;
  }

  /** One item, and what follows its blanks. */
  lemma ItemParses(s: Bytes, v: Json, blanks: Bytes, tail: Bytes, more: seq<Json>, depth: nat, post: Bytes)
    requires AllBlank(blanks) && tail != [] && ParseValue(SkipWs(s), depth) == Ok(v, blanks + tail)
    requires || (tail[0] == CLOSE_BRACKET && tail[1..] == post && more == [])
             || (tail[0] == COMMA && ParseItems(tail[1..], depth) == Ok(more, post))
    ensures ParseItems(s, depth) == Ok([v] + more, post)
  {
    hide ParseValue;
    TailEnds(blanks, tail);
    hide SkipWs;
    assert more == [] ==> [v] + more == [v];
  }

  lemma {:induction false} ItemsParse(items: seq<Item>, depth: nat, post: Bytes)
    requires depth <= NESTING_LIMIT && items != [] && ItemsOk(items, NESTING_LIMIT - depth)
    ensures var t := WrittenItems(items, [0x5d] + post);
            && SkipWs(t) != [] && SkipWs(t)[0] != CLOSE_BRACKET
            && ParseItems(t, depth) == Ok(ItemsMeaning(items, NESTING_LIMIT - depth), post)
    decreases items, 0
  {
    var i, limit := items[0], NESTING_LIMIT - depth;
    var tail := if |items| == 1 then [0x5d] + post else [0x2c] + WrittenItems(items[1..], [0x5d] + post);
    assert AllBlank(i.before) && AllBlank(i.after) && DocOk(i.value, limit);
    var text := Written(i.value, i.after + tail);
    assert WrittenItems(items, [0x5d] + post) == i.before + text;
    ItemsMeaningStep(items, limit);
    hide Written, WrittenItems, ParseValue, ParseItems, SkipWs, AllBlank, DocOk, ItemsOk, Meaning, ItemsMeaning,
         EndsNumber;
    TailEnds(i.after, tail);
    WrittenStart(i.value, limit, i.after + tail);
    SkipBlanks(i.before, text);
    ValueParses(i.value, depth, i.after + tail);
    if |items| == 1 {
      assert tail[1..] == post;
      ItemParses(i.before + text, Meaning(i.value, limit), i.after, tail, [], depth, post);
    } else {
      ItemsParse(items[1..], depth, post);
      assert tail[1..] == WrittenItems(items[1..], [0x5d] + post);
      ItemParses(i.before + text, Meaning(i.value, limit), i.after, tail, ItemsMeaning(items[1..], limit), depth, post);
    }
  }

  lemma ItemsMeaningStep(items: seq<Item>, limit: int)
    requires items != [] && ItemsOk(items, limit)
    ensures ItemsOk(items[1..], limit) && DocOk(items[0].value, limit)
    ensures ItemsMeaning(items, limit) == [Meaning(items[0].value, limit)] + ItemsMeaning(items[1..], limit)
    ensures |items| == 1 ==> ItemsMeaning(items[1..], limit) == []
  {
  }

  // ---------- Objects ----------

  lemma EmptyObjectParses(blanks: Bytes, depth: nat, post: Bytes)
    requires AllBlank(blanks) && depth < NESTING_LIMIT
    ensures ParseValue([0x7b] + (blanks + ([0x7d] + post)), depth) == Ok(Obj([]), post)
  {
    EmptyObject(blanks, [], depth, post);
    assert [] + ([CLOSE_BRACE] + post) == [0x7d] + post;
  }

  lemma ObjectParses(t: Bytes, members: seq<Member>, depth: nat, post: Bytes)
    requires depth < NESTING_LIMIT && SkipWs(t) != [] && SkipWs(t)[0] == QUOTE
    requires ParseMembers(t, depth + 1) == Ok(members, post)
    ensures ParseValue([0x7b] + t, depth) == Ok(Obj(members), post)
  {
    SkipsOnce(t);
    hide ParseMembers, ParseValue, SkipWs;
    SkipTwice(t, depth + 1);
    OpenObject(t, members, depth, post);
  }

  /** One member: its name, the colon and its value, with blanks around each. */
  lemma EntryParses(m: Entry, s: Bytes, v: Json, depth: nat, rest: Bytes)
    requires AllBlank(m.before) && AllBlank(m.behind) && AllBlank(m.ahead) && UnitsOk(m.name)
    requires s != [] && s[0] > SPACE && ParseValue(s, depth) == Ok(v, rest)
    ensures var t := m.before + ([0x22] + StringText(m.name, m.behind + ([0x3a] + (m.ahead + s))));
            && SkipWs(t) != [] && SkipWs(t)[0] == QUOTE
            && ParseMember(t, depth) == Ok(Member(StringMeaning(m.name), v), rest)
  {
    var colon := [0x3a] + (m.ahead + s);
    var quoted := [0x22] + StringText(m.name, m.behind + colon);
    hide StringText, StringMeaning, UnitsOk, ParseString, ParseValue;
    StringParses(m.name, m.behind + colon);
    SkipBlanks(m.before, quoted);
    SkipBlanks(m.behind, colon);
    SkipBlanks(m.ahead, s);
    assert colon[1..] == m.ahead + s;
    hide SkipWs;
  }

  lemma MemberThen(s: Bytes, m: Member, blanks: Bytes, tail: Bytes, more: seq<Member>, depth: nat, post: Bytes)
    requires AllBlank(blanks) && tail != [] && ParseMember(s, depth) == Ok(m, blanks + tail)
    requires || (tail[0] == CLOSE_BRACE && tail[1..] == post && more == [])
             || (tail[0] == COMMA && ParseMembers(tail[1..], depth) == Ok(more, post))
    ensures ParseMembers(s, depth) == Ok([m] + more, post)
  {
    hide ParseMember;
    TailEnds(blanks, tail);
    hide SkipWs;
    assert more == [] ==> [m] + more == [m];
  }

  lemma {:induction false} EntriesParse(members: seq<Entry>, depth: nat, post: Bytes)
    requires depth <= NESTING_LIMIT && members != [] && EntriesOk(members, NESTING_LIMIT - depth)
    ensures var t := WrittenEntries(members, [0x7d] + post);
            && SkipWs(t) != [] && SkipWs(t)[0] == QUOTE
            && ParseMembers(t, depth) == Ok(EntriesMeaning(members, NESTING_LIMIT - depth), post)
    decreases members, 1
  {
    hide Written, WrittenEntries, ParseValue, ParseMember, ParseMembers, SkipWs, AllBlank, DocOk, EntriesOk, Meaning,
         EntriesMeaning, EndsNumber, StringText, StringMeaning, UnitsOk;
    var m, limit, end := members[0], NESTING_LIMIT - depth, [0x7d] + post;
    var tail := if |members| == 1 then end else [0x2c] + WrittenEntries(members[1..], end);
    var first := FirstEntry(members, tail, depth);
    EntriesForm(members, end);
    if |members| == 1 {
      assert tail[1..] == post;
      MemberThen(WrittenEntries(members, end), first, m.after, tail, [], depth, post);
    } else {
      EntriesMeaningStep(members, limit);
      EntriesParse(members[1..], depth, post);
      assert tail[1..] == WrittenEntries(members[1..], end);
      MemberThen(WrittenEntries(members, end), first, m.after, tail, EntriesMeaning(members[1..], limit), depth, post);
    }
    EntriesMeaningStep(members, limit);
  }

  lemma EntriesForm(members: seq<Entry>, end: Bytes)
    requires members != []
    ensures var tail := if |members| == 1 then end else [0x2c] + WrittenEntries(members[1..], end);
            WrittenEntries(members, end) == EntryText(members[0], tail)
  {
    hide EntryText;
  }

  lemma {:induction false} FirstEntry(members: seq<Entry>, tail: Bytes, depth: nat) returns (first: Member)
    requires depth <= NESTING_LIMIT && members != [] && EntriesOk(members, NESTING_LIMIT - depth)
    requires tail != [] && tail[0] in {COMMA, CLOSE_BRACE}
    ensures DocOk(members[0].value, NESTING_LIMIT - depth) && UnitsOk(members[0].name) && AllBlank(members[0].after)
    ensures first == Member(StringMeaning(members[0].name), Meaning(members[0].value, NESTING_LIMIT - depth))
    ensures var t := EntryText(members[0], tail);
            && SkipWs(t) != [] && SkipWs(t)[0] == QUOTE
            && ParseMember(t, depth) == Ok(first, members[0].after + tail)
    decreases members, 0, 0
  {
    hide Written, ParseValue, ParseMember, SkipWs, AllBlank, DocOk, EntriesOk, Meaning, EntriesMeaning, EndsNumber,
         StringText, StringMeaning, UnitsOk;
    var m, limit := members[0], NESTING_LIMIT - depth;
    EntriesMeaningStep(members, limit);
    TailEnds(m.after, tail);
    WrittenStart(m.value, limit, m.after + tail);
    ValueParses(m.value, depth, m.after + tail);
    first := Member(StringMeaning(m.name), Meaning(m.value, limit));
    EntryParses(m, Written(m.value, m.after + tail), Meaning(m.value, limit), depth, m.after + tail);
  }

  lemma EntriesMeaningStep(members: seq<Entry>, limit: int)
    requires members != [] && EntriesOk(members, limit)
    ensures var m := members[0];
            && AllBlank(m.before) && AllBlank(m.behind) && AllBlank(m.ahead) && AllBlank(m.after)
            && UnitsOk(m.name) && DocOk(m.value, limit)
    ensures EntriesOk(members[1..], limit)
    ensures EntriesMeaning(members, limit) ==
            [Member(StringMeaning(members[0].name), Meaning(members[0].value, limit))]
            + EntriesMeaning(members[1..], limit)
    ensures |members| == 1 ==> EntriesMeaning(members[1..], limit) == []
  {
  }

  // ---------- Values ----------

  /** Every value of the grammar, nested at most 1000 deep, is read as it is meant, and the rest is left. */
  lemma {:induction false} ValueParses(v: Doc, depth: nat, post: Bytes)
    requires depth <= NESTING_LIMIT && DocOk(v, NESTING_LIMIT - depth) && EndsNumber(post)
    ensures ParseValue(Written(v, post), depth) == Ok(Meaning(v, NESTING_LIMIT - depth), post)
    decreases v, 1
  {
    var limit := NESTING_LIMIT - depth;
    hide ParseValue, ParseItems, ParseMembers, WrittenItems, WrittenEntries, StringText, StringMeaning, NumberText,
         NumberMeaning, AllBlank, EndsNumber, SkipWs;
    match v
    case NullDoc => WordParses(v, depth, post);
    case BoolDoc(_) => WordParses(v, depth, post);
    case NumDoc(n) => NumberValueParses(n, depth, post);
    case StrDoc(units) => StringValueParses(units, depth, post);
    case ArrDoc(blanks, items) =>
      ArrayInside(v, limit);
      if items == [] {
        EmptyArrayParses(blanks, depth, post);
      } else {
        ItemsParse(items, depth + 1, post);
        ArrayParses(WrittenItems(items, [0x5d] + post), ItemsMeaning(items, limit - 1), depth, post);
      }
    case ObjDoc(blanks, members) =>
      ObjectInside(v, limit);
      if members == [] {
        EmptyObjectParses(blanks, depth, post);
      } else {
        EntriesParse(members, depth + 1, post);
        ObjectParses(WrittenEntries(members, [0x7d] + post), EntriesMeaning(members, limit - 1), depth, post);
      }
  }

  lemma ArrayInside(v: Doc, limit: int)
    requires v.ArrDoc? && DocOk(v, limit)
    ensures limit > 0 && AllBlank(v.blanks) && ItemsOk(v.items, limit - 1)
    ensures Meaning(v, limit) == Arr(ItemsMeaning(v.items, limit - 1))
    ensures v.items == [] ==> ItemsMeaning(v.items, limit - 1) == []
  {
  }

  lemma ObjectInside(v: Doc, limit: int)
    requires v.ObjDoc? && DocOk(v, limit)
    ensures limit > 0 && AllBlank(v.blanks) && EntriesOk(v.members, limit - 1)
    ensures Meaning(v, limit) == Obj(EntriesMeaning(v.members, limit - 1))
    ensures v.members == [] ==> EntriesMeaning(v.members, limit - 1) == []
  {
  }

  // ---------- Whole texts ----------

  const BOM: Bytes := [0xef, 0xbb, 0xbf]

  lemma LeadSkipped(lead: Bytes, t: Bytes)
    requires AllBlank(lead) && t != [] && SPACE < t[0] < 0xef
    ensures SkipWs(SkipBom(lead + t)) == t
    ensures |lead + t| > 1 ==> SkipWs(SkipBom(BOM + (lead + t))) == t
  {
    var s := lead + t;
    assert s[0] == t[0] || s[0] <= SPACE;
    NoBom(s);
    SkipBlanks(lead, t);
    assert (BOM + s)[..3] == BOM && (BOM + s)[3..] == s;
  }

  /**
    * Every text of the grammar, nested at most 1000 deep, is read as it is meant: with blanks around it, behind a byte
    * order mark if at least two bytes follow that, and up to a terminating zero if the whole text is asked for.
    */
  lemma DocumentParses(v: Doc, lead: Bytes, trail: Bytes)
    requires DocOk(v, NESTING_LIMIT) && AllBlank(lead) && AllBlank(trail)
    ensures var s := lead + Written(v, trail);
            && Parse(s, false) == Some(Meaning(v, NESTING_LIMIT))
            && (|s| > 1 ==> Parse(BOM + s, false) == Some(Meaning(v, NESTING_LIMIT)))
    ensures var s := lead + Written(v, trail + [0]);
            && Parse(s, true) == Some(Meaning(v, NESTING_LIMIT))
            && (|s| > 1 ==> Parse(BOM + s, true) == Some(Meaning(v, NESTING_LIMIT)))
  {
    TrailEnds(trail);
    hide Written, Meaning, DocOk, ParseValue, SkipWs, SkipBom, AllBlank, EndsNumber;
    WrittenStart(v, NESTING_LIMIT, trail);
    WrittenStart(v, NESTING_LIMIT, trail + [0]);
    LeadSkipped(lead, Written(v, trail));
    LeadSkipped(lead, Written(v, trail + [0]));
    ValueParses(v, 0, trail);
    ValueParses(v, 0, trail + [0]);
  }

  lemma {:induction false} TrailEnds(trail: Bytes)
    requires AllBlank(trail)
    ensures EndsNumber(trail) && EndsNumber(trail + [0]) && SkipWs(trail + [0]) == [0]
  {
    if trail != [] {
      TrailEnds(trail[1..]);
      assert (trail + [0])[1..] == trail[1..] + [0];
    }
  }

  /** The parser over its buffer reads the text of a document as it is meant. */
  method ReadDocument(ghost v: Doc, text: Bytes, ghost lead: Bytes, ghost trail: Bytes) returns (r: Option<Json>)
    requires DocOk(v, NESTING_LIMIT) && AllBlank(lead) && AllBlank(trail) && text == lead + Written(v, trail + [0])
    ensures r == Some(Meaning(v, NESTING_LIMIT))
  {
    hide Written, Meaning, DocOk, Parse, AllBlank;
    DocumentParses(v, lead, trail);
    var reader := new JsonReader.ParseBuffer(text);
    r := reader.ParseDocument(true);
  }
}

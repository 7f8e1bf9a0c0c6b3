/** The printer as it works: a growing buffer, an offset, and texts written in place behind it. */
module JsonWriter {
  import opened JsonText

  // ---------- Texts have no zero byte ----------

  lemma {:induction false} EscapeNoNul(s: Bytes)
    ensures NoNul(s) ==> NoNul(Escape(s))
  {
    if s != [] {
      EscapeNoNul(s[1..]);
    }
  }

  lemma {:induction false} TextNoNul(v: Json, d: nat, format: bool)
    requires Printable(v)
    ensures NoNul(Text(v, d, format))
    decreases v, 1
  {
    match v
    case Null =>
    case Bool(_) =>
    case Num(n) =>
    case Str(s) => EscapeNoNul(s);
    case Arr(items) => ItemsNoNul(items, d + 1, format);
    case Obj(members) => MembersNoNul(members, d + 1, format);
  }

  lemma {:induction false} ItemsNoNul(items: seq<Json>, d: nat, format: bool)
    requires Printable(Arr(items))
    ensures NoNul(ItemsText(items, d, format))
    decreases items, 0
  {
    if items != [] {
      TextNoNul(items[0], d, format);
      ItemsNoNul(items[1..], d, format);
    }
  }

  lemma {:induction false} MembersNoNul(members: seq<Member>, d: nat, format: bool)
    requires Printable(Obj(members))
    ensures NoNul(MembersText(members, d, format))
    decreases members, 0
  {
    if members != [] {
      var m := members[0];
      EscapeNoNul(m.name);
      TextNoNul(m.value, d, format);
      MembersNoNul(members[1..], d, format);
    }
  }

  // ---------- Escapes are counted before they are written ----------

  /** How many bytes more than itself a byte takes. */
  function Extra(b: Byte): nat {
    if ShortEscape(b) != 0 then 1 else if b < 32 then 5 else 0
  }

  lemma {:induction false} EscapeSnoc(s: Bytes, b: Byte)
    ensures Escape(s + [b]) == Escape(s) + EscapeByte(b)
  {
    if s != [] {
      EscapeSnoc(s[1..], b);
      assert (s + [b])[1..] == s[1..] + [b];
    } else {
      assert s + [b] == [b] && [b][1..] == [];
    }
  }

  lemma {:induction false} EscapePrefix(s: Bytes, i: nat)
    requires i <= |s|
    ensures |Escape(s[..i])| <= |Escape(s)|
    decreases |s| - i
  {
    if i == |s| {
      assert s[..i] == s;
    } else {
      EscapePrefix(s, i + 1);
      EscapeSnoc(s[..i], s[i]);
      assert s[..i + 1] == s[..i] + [s[i]];
    }
  }

  lemma EscapeNothing()
    ensures Escape([]) == []
  {
  }

  /** One more byte of the string. */
  lemma EscapeGrow(s: Bytes, i: nat)
    requires i < |s|
    ensures Escape(s[..i + 1]) == Escape(s[..i]) + EscapeByte(s[i])
    ensures |Escape(s[..i + 1])| <= |Escape(s)|
  {
    EscapeSnoc(s[..i], s[i]);
    EscapePrefix(s, i + 1);
    assert s[..i + 1] == s[..i] + [s[i]];
  }

  lemma {:induction false} EscapePlain(s: Bytes)
    ensures |Escape(s)| >= |s|
    ensures |Escape(s)| == |s| ==> Escape(s) == s
  {
    if s != [] {
      EscapePlain(s[1..]);
      assert s == [s[0]] + s[1..];
    }
  }

  class PrintBuffer {
    var buffer: array<Byte>
    var offset: nat
    var depth: nat
    const noalloc: bool
    const format: bool

    constructor (size: nat, noalloc: bool, format: bool)
      ensures Valid() && offset == 0 && depth == 0 && buffer.Length == size && fresh(buffer)
      ensures this.noalloc == noalloc && this.format == format
    {
      buffer := new Byte[size];
      offset, depth := 0, 0;
      this.noalloc, this.format := noalloc, format;
    }

    ghost predicate Valid()
      reads this
    {
      offset < buffer.Length || (offset == 0 && buffer.Length == 0)
    }

    /** What has been printed for good. */
    ghost function Written(): Bytes
      requires Valid()
      reads this, buffer
    {
      buffer[..offset]
    }

    /** Makes room for `needed` more bytes and a terminator; the printed bytes stay. */
    method Ensure(needed: nat) returns (ok: bool)
      requires Valid()
      modifies this
      ensures Valid() && offset == old(offset) && depth == old(depth) && Written() == old(Written())
      ensures buffer == old(buffer) || fresh(buffer)
      ensures ok ==> offset + needed < buffer.Length
      ensures !ok ==> noalloc || offset + needed + 1 > INT_MAX
      ensures ok <==>
              needed <= INT_MAX
              && (offset + needed < old(buffer.Length) || (!noalloc && offset + needed + 1 <= INT_MAX))
      ensures buffer != old(buffer) ==>
                buffer.Length == if offset + needed + 1 <= INT_MAX / 2 then 2 * (offset + needed + 1) else INT_MAX
    {
      if needed > INT_MAX {
        return false;
      }
      var total := needed + offset + 1;
      if total <= buffer.Length {
        return true;
      }
      if noalloc {
        return false;
      }
      var newSize := total * 2;
      if total > INT_MAX / 2 {
        if total > INT_MAX {
          return false;
        }
        newSize := INT_MAX;
      }
      var bigger := new Byte[newSize];
      for i := 0 to offset
        invariant bigger[..i] == buffer[..i]
        modifies bigger
      {
        bigger[i] := buffer[i];
      }
      buffer := bigger;
      return true;
    }

    /** Copies bytes into the buffer. */
    method Store(at: nat, bytes: Bytes)
      requires at + |bytes| <= buffer.Length
      modifies buffer
      ensures buffer[..at] == old(buffer[..at]) && buffer[at..at + |bytes|] == bytes
      ensures buffer[at + |bytes|..] == old(buffer[at + |bytes|..])
    {
      for i := 0 to |bytes|
        invariant buffer[..at] == old(buffer[..at])
        invariant buffer[at..at + i] == bytes[..i]
        invariant buffer[at + |bytes|..] == old(buffer[at + |bytes|..])
      {
        buffer[at + i] := bytes[i];
      }
    }

    /** The buffer holds `text` and a terminator; the offset may not have reached its end yet. */
    ghost predicate Holds(text: Bytes)
      reads this, buffer
    {
      && offset <= |text| < buffer.Length
      && buffer[..|text|] == text
      && buffer[|text|] == 0
    }

    /** update_offset: moves the offset to the terminator. */
    method UpdateOffset(ghost text: Bytes)
      requires Holds(text) && NoNul(text[offset..])
      modifies this`offset
      ensures Valid() && offset == |text| && Written() == text
    {
      forall j | offset <= j < |text| ensures buffer[j] != 0 {
        assert text[offset..][j - offset] == buffer[..|text|][j] && text[offset..][j - offset] in text[offset..];
      }
      var n := 0;
      while buffer[offset + n] != 0
        invariant offset + n <= |text|
        decreases |text| - offset - n
      {
        n := n + 1;
      }
      offset := offset + n;
    }

    /** Appends bytes and a terminator at the offset without moving it. */
    method Append(bytes: Bytes) returns (ok: bool)
      requires Valid()
      modifies this, buffer
      ensures Valid() && offset == old(offset) && depth == old(depth) && (buffer == old(buffer) || fresh(buffer))
      ensures Written() == old(Written())
      ensures ok ==> Holds(old(Written()) + bytes)
      ensures !ok ==> noalloc || offset + |bytes| + 2 > INT_MAX
    {
      ok := Ensure(|bytes| + 1);
      if !ok {
        return;
      }
      Store(offset, bytes);
      buffer[offset + |bytes|] := 0;
      assert buffer[..offset + |bytes|] == old(Written()) + bytes;
    }

    method CountEscapes(s: Bytes) returns (n: nat)
      ensures |s| + n == |Escape(s)|
    {
      n := 0;
      for i := 0 to |s|
        invariant i + n == |Escape(s[..i])|
      {
        EscapeSnoc(s[..i], s[i]);
        assert s[..i + 1] == s[..i] + [s[i]];
        n := n + Extra(s[i]);
      }
      assert s[..|s|] == s;
    }

    /** The hexadecimal form; sprintf leaves a terminator behind it. */
    method StoreHex(at: nat, b: Byte)
      requires b < 32 && ShortEscape(b) == 0 && at + 6 < buffer.Length
      modifies buffer
      ensures buffer[..at] == old(buffer[..at]) && buffer[at..at + 6] == EscapeByte(b)
    {
      ghost var digits := [LETTER_U, 48, 48, HexDigit(b / 16), HexDigit(b % 16)];
      assert EscapeByte(b) == [BACKSLASH] + digits;
      hide EscapeByte;
      ghost var low := buffer[..at];
      buffer[at] := BACKSLASH;
      assert buffer[..at + 1] == low + [BACKSLASH];
      Store(at + 1, [LETTER_U, 48, 48, HexDigit(b / 16), HexDigit(b % 16), 0]);
      hide HexDigit;
      assert buffer[..at] == buffer[..at + 1][..at];
      assert buffer[at + 1..at + 6] == buffer[at + 1..at + 7][..5] == digits;
      assert buffer[at..at + 6] == buffer[..at + 1][at..] + buffer[at + 1..at + 6];
    }

    /** Writes one byte of a string, escaped if need be. */
    method StoreEscaped(at: nat, b: Byte) returns (next: nat)
      requires at + |EscapeByte(b)| < buffer.Length
      modifies buffer
      ensures next == at + |EscapeByte(b)|
      ensures buffer[..at] == old(buffer[..at]) && buffer[at..next] == EscapeByte(b)
    {
      hide HexDigit;
      if b > 31 && b != QUOTE && b != BACKSLASH {
        buffer[at] := b;
        next := at + 1;
      } else if ShortEscape(b) != 0 {
        buffer[at] := BACKSLASH;
        buffer[at + 1] := ShortEscape(b);
        next := at + 2;
      } else {
        StoreHex(at, b);
        next := at + 6;
      }
    }

    /** The copying loop of the second pass: it writes exactly the bytes that the first pass counted. */
    method StoreAllEscaped(start: nat, s: Bytes) returns (next: nat)
      requires start + |Escape(s)| < buffer.Length
      modifies buffer
      ensures next == start + |Escape(s)|
      ensures buffer[..start] == old(buffer[..start]) && buffer[start..next] == Escape(s)
    {
      hide Escape, EscapeByte;
      next := start;
      ghost var low := buffer[..start];
      EscapeNothing();
      for i := 0 to |s|
        invariant next == start + |Escape(s[..i])| && next < buffer.Length
        invariant buffer[..next] == low + Escape(s[..i])
      {
        EscapeGrow(s, i);
        var at := next;
        next := StoreEscaped(at, s[i]);
        assert buffer[..next] == buffer[..at] + buffer[at..next];
        Regrouped(low, Escape(s[..i]), EscapeByte(s[i]));
      }
      assert s[..|s|] == s;
      assert buffer[..start] == buffer[..next][..start];
      assert buffer[start..next] == buffer[..next][start..];
    }

    /** The contents, copied as they are when nothing needs escaping. */
    method StoreContents(at: nat, s: Bytes, escapes: nat)
      requires |s| + escapes == |Escape(s)| && at + |Escape(s)| < buffer.Length
      modifies buffer
      ensures buffer[..at] == old(buffer[..at]) && buffer[at..at + |Escape(s)|] == Escape(s)
    {
      EscapePlain(s);
      hide Escape;
      if escapes == 0 {
        Store(at, s);
      } else {
        var end := StoreAllEscaped(at, s);
      }
    }

    /** Quote, contents, quote, terminator. */
    method StoreQuoted(at: nat, s: Bytes, escapes: nat)
      requires |s| + escapes == |Escape(s)| && at + |Escape(s)| + 2 < buffer.Length
      modifies buffer
      ensures buffer[..at] == old(buffer[..at])
      ensures buffer[at..at + |Quoted(s)|] == Quoted(s) && buffer[at + |Quoted(s)|] == 0
    {
      hide Escape;
      var end := at + 1 + |s| + escapes;
      ghost var low := buffer[..at];
      buffer[at] := QUOTE;
      assert buffer[..at + 1] == low + [QUOTE];
      StoreContents(at + 1, s, escapes);
      assert buffer[..end] == buffer[..at + 1] + buffer[at + 1..end];
      buffer[end] := QUOTE;
      buffer[end + 1] := 0;
      assert buffer[..end + 1] == low + [QUOTE] + Escape(s) + [QUOTE];
      assert buffer[..end + 1] == low + Quoted(s);
      hide Quoted;
      assert buffer[..at] == buffer[..end + 1][..at];
      assert buffer[at..end + 1] == buffer[..end + 1][at..];
    }

    method PrintStringPtr(s: Bytes) returns (ok: bool)
      requires Valid()
      modifies this, buffer
      ensures Valid() && offset == old(offset) && depth == old(depth) && (buffer == old(buffer) || fresh(buffer))
      ensures Written() == old(Written())
      ensures ok ==> Holds(old(Written()) + Quoted(s))
      ensures !ok ==> noalloc || offset + |Quoted(s)| + 2 > INT_MAX
    {
      var escapes := CountEscapes(s);
      hide Escape;
      ok := Ensure(|s| + escapes + 3);
      if !ok {
        return;
      }
      StoreQuoted(offset, s, escapes);
      hide Quoted;
      assert buffer[..offset + |Quoted(s)|] == buffer[..offset] + buffer[offset..offset + |Quoted(s)|];
    }

    /** Reserves `needed` bytes, writes some of them and moves the offset behind them. */
    method Emit(bytes: Bytes, needed: nat) returns (ok: bool)
      requires Valid() && |bytes| <= needed
      modifies this, buffer
      ensures Valid() && depth == old(depth) && (buffer == old(buffer) || fresh(buffer)) && offset >= old(offset)
      ensures ok ==> offset == old(offset) + |bytes| && Written() == old(Written()) + bytes
      ensures !ok ==> noalloc || old(offset) + needed + 1 > INT_MAX
    {
      ok := Ensure(needed);
      if !ok {
        return;
      }
      Store(offset, bytes);
      offset := offset + |bytes|;
      assert buffer[..offset] == old(Written()) + bytes;
    }

    /** Moves the offset behind a text just printed. */
    method Advance(ghost before: Bytes, ghost text: Bytes)
      requires Holds(before + text) && offset >= |before| && NoNul(text)
      modifies this`offset
      ensures Valid() && offset == |before| + |text| && Written() == before + text
    {
      assert (before + text)[offset..] == text[offset - |before|..];
      UpdateOffset(before + text);
    }

    method PrintNumber(n: int) returns (ok: bool)
      requires Valid()
      modifies this, buffer
      ensures Valid() && depth == old(depth) && (buffer == old(buffer) || fresh(buffer)) && offset >= old(offset)
      ensures ok ==> Holds(old(Written()) + IntText(n))
      ensures !ok ==> noalloc || old(offset) + |IntText(n)| + 2 > INT_MAX
    {
      var text := IntText(n);
      ok := Append(text);
      if ok {
        offset := offset + |text|;
      }
    }

    method PrintValue(v: Json) returns (ok: bool)
      requires Valid() && Printable(v)
      modifies this, buffer
      ensures Valid() && (buffer == old(buffer) || fresh(buffer)) && offset >= old(offset)
      ensures ok ==> depth == old(depth) && Holds(old(Written()) + Text(v, old(depth), format))
      ensures !ok ==> noalloc || old(offset) + |Text(v, old(depth), format)| + 2 > INT_MAX
      decreases v, 2
    {
      hide ItemsText, MembersText, Quoted, IntText;
      match v
      case Null => ok := Append(NULL_TEXT);
      case Bool(b) => ok := Append(if b then TRUE_TEXT else FALSE_TEXT);
      case Num(n) => ok := PrintNumber(n.Floor);
      case Str(s) => ok := PrintStringPtr(s);
      case Arr(items) => ok := PrintArray(items);
      case Obj(members) => ok := PrintObject(members);
    }

    method PrintArray(items: seq<Json>) returns (ok: bool)
      requires Valid() && Printable(Arr(items))
      modifies this, buffer
      ensures Valid() && (buffer == old(buffer) || fresh(buffer)) && offset >= old(offset)
      ensures var text := [OPEN_BRACKET] + ItemsText(items, old(depth) + 1, format) + [CLOSE_BRACKET];
              && (ok ==> depth == old(depth) && Holds(old(Written()) + text))
              && (!ok ==> noalloc || old(offset) + |text| + 2 > INT_MAX)
      decreases items, 1
    {
      hide ItemsText;
      ghost var before := Written();
      ok := Emit([OPEN_BRACKET], 1);
      if !ok {
        return;
      }
      depth := depth + 1;
      ok := PrintItems(items);
      if !ok {
        return;
      }
      ghost var inner := ItemsText(items, depth, format);
      ok := Append([CLOSE_BRACKET]);
      depth := depth - 1;
      assert before + [OPEN_BRACKET] + inner + [CLOSE_BRACKET] == before + ([OPEN_BRACKET] + inner + [CLOSE_BRACKET]);
    }

    /** One item and the separator after it. */
    method PrintItem(v: Json, separator: Bytes) returns (ok: bool)
      requires Valid() && Printable(v)
      modifies this, buffer
      ensures Valid() && (buffer == old(buffer) || fresh(buffer)) && offset >= old(offset)
      ensures var text := Text(v, old(depth), format) + separator;
              && (ok ==> depth == old(depth) && offset == old(offset) + |text| && Written() == old(Written()) + text)
              && (!ok ==> noalloc || old(offset) + |text| + 2 > INT_MAX)
      decreases v, 3
    {
      hide Text;
      ghost var before, text := Written(), Text(v, depth, format);
      ok := PrintValue(v);
      if !ok {
        return;
      }
      TextNoNul(v, depth, format);
      Advance(before, text);
      if separator != [] {
        ok := Emit(separator, |separator| + 1);
      }
      Regrouped(before, text, separator);
    }

    /** The loop over the items, with the separators between them. */
    method PrintItems(items: seq<Json>) returns (ok: bool)
      requires Valid() && Printable(Arr(items))
      modifies this, buffer
      ensures Valid() && (buffer == old(buffer) || fresh(buffer)) && offset >= old(offset)
      ensures var text := ItemsText(items, old(depth), format);
              && (ok ==> depth == old(depth) && Written() == old(Written()) + text && offset == old(offset) + |text|)
              && (!ok ==> noalloc || old(offset) + |text| + 2 > INT_MAX)
      decreases items, 0
    {
      hide Text, ItemsText;
      ghost var before, d := Written(), depth;
      ghost var done: Bytes := [];
      ItemsTail(items, 0, d, format);
      assert [] + ItemsText(items, d, format) == ItemsText(items, d, format);
      for i := 0 to |items|
        invariant Valid() && (buffer == old(buffer) || fresh(buffer)) && depth == d
        invariant done + ItemsText(items[i..], d, format) == ItemsText(items, d, format)
        invariant offset == old(offset) + |done| && Written() == before + done
      {
        ItemsTail(items, i, d, format);
        var separator := Separator(i + 1 == |items|, format);
        ok := PrintItem(items[i], separator);
        if !ok {
          return;
        }
        ghost var piece := Text(items[i], d, format) + separator;
        Regrouped(before, done, piece);
        Regrouped(done, piece, ItemsText(items[i + 1..], d, format));
        done := done + piece;
      }
      ItemsEnd(items, d, format);
      return true;
    }

    method PrintObject(members: seq<Member>) returns (ok: bool)
      requires Valid() && Printable(Obj(members))
      modifies this, buffer
      ensures Valid() && (buffer == old(buffer) || fresh(buffer)) && offset >= old(offset)
      ensures var text := ObjectText(members, old(depth), format);
              && (ok ==> depth == old(depth) && Holds(old(Written()) + text))
              && (!ok ==> noalloc || old(offset) + |text| + 2 > INT_MAX)
      decreases members, 1
    {
      hide MembersText, Tabs;
      ghost var before, d := Written(), depth;
      var opening: Bytes := [OPEN_BRACE] + if format then [NEWLINE] else [];
      ok := Emit(opening, |opening| + 1);
      if !ok {
        return;
      }
      depth := depth + 1;
      ok := PrintMembers(members);
      if !ok {
        return;
      }
      ghost var inner := MembersText(members, depth, format);
      var closing: Bytes := (if format then Tabs(depth - 1) else []) + [CLOSE_BRACE];
      ok := Append(closing);
      depth := depth - 1;
      assert before + opening + inner + closing == before + (opening + inner + closing);
      assert opening + inner + closing == ObjectText(members, d, format);
    }

    /** The loop over the members. */
    method PrintMembers(members: seq<Member>) returns (ok: bool)
      requires Valid() && Printable(Obj(members))
      modifies this, buffer
      ensures Valid() && (buffer == old(buffer) || fresh(buffer)) && offset >= old(offset)
      ensures var text := MembersText(members, old(depth), format);
              && (ok ==> depth == old(depth) && Written() == old(Written()) + text && offset == old(offset) + |text|)
              && (!ok ==> noalloc || old(offset) + |text| + 2 > INT_MAX)
      decreases members, 0
    {
      hide Text, MemberText, MembersText;
      ghost var before, d := Written(), depth;
      ghost var done: Bytes := [];
      MembersTail(members, 0, d, format);
      assert [] + MembersText(members, d, format) == MembersText(members, d, format);
      for i := 0 to |members|
        invariant Valid() && (buffer == old(buffer) || fresh(buffer)) && depth == d && offset >= old(offset)
        invariant done + MembersText(members[i..], d, format) == MembersText(members, d, format)
        invariant Written() == before + done && offset == old(offset) + |done|
      {
        MembersTail(members, i, d, format);
        var separator := MemberSeparator(i + 1 == |members|, format);
        ok := PrintMember(members[i], separator);
        if !ok {
          return;
        }
        ghost var piece := MemberText(members[i], d, format) + separator;
        Regrouped(before, done, piece);
        Regrouped(done, piece, MembersText(members[i + 1..], d, format));
        done := done + piece;
      }
      MembersEnd(members, d, format);
      return true;
    }

    /** Indentation, name, colon, value, and what separates it from the next member. */
    method PrintMember(m: Member, separator: Bytes) returns (ok: bool)
      requires Valid() && NoNul(m.name) && Printable(m.value)
      modifies this, buffer
      ensures Valid() && (buffer == old(buffer) || fresh(buffer)) && offset >= old(offset)
      ensures var text := MemberText(m, old(depth), format) + separator;
              && (ok ==> depth == old(depth) && Written() == old(Written()) + text && offset == old(offset) + |text|)
              && (!ok ==> noalloc || old(offset) + |text| + 2 > INT_MAX)
      decreases m, 3
    {
      hide Text, NameText;
      ghost var before, d := Written(), depth;
      ghost var name, text := NameText(m.name, d, format), Text(m.value, d, format);
      assert MemberText(m, d, format) == name + text by { MemberIsNameAndValue(m, d, format); }
      hide MemberText;
      ok := PrintName(m.name);
      if !ok {
        return;
      }
      ok := PrintValue(m.value);
      if !ok {
        return;
      }
      TextNoNul(m.value, d, format);
      Advance(before + name, text);
      ok := Emit(separator, |separator| + 1);
      Regrouped(before, name, text);
      Regrouped(before, name + text, separator);
    }

    method PrintName(name: Bytes) returns (ok: bool)
      requires Valid() && NoNul(name)
      modifies this, buffer
      ensures Valid() && depth == old(depth) && (buffer == old(buffer) || fresh(buffer)) && offset >= old(offset)
      ensures var text := NameText(name, old(depth), format);
              && (ok ==> Written() == old(Written()) + text && offset == old(offset) + |text|)
              && (!ok ==> noalloc || old(offset) + |text| + 2 > INT_MAX)
    {
      EscapeNoNul(name);
      assert NoNul(Quoted(name));
      hide Tabs, Quoted;
      ghost var before := Written();
      var indent: Bytes := if format then Tabs(depth) else [];
      if format {
        TabsLength(depth);
        ok := Emit(indent, depth);
        if !ok {
          return;
        }
      }
      assert Written() == before + indent;
      ok := PrintStringPtr(name);
      if !ok {
        return;
      }
      Advance(before + indent, Quoted(name));
      var colon: Bytes := [COLON] + if format then [TAB] else [];
      ok := Emit(colon, |colon|);
      Regrouped(before, indent, Quoted(name));
      Regrouped(before, indent + Quoted(name), colon);
      assert indent + Quoted(name) + colon == NameText(name, depth, format);
    }

    /** Prints a whole tree into an empty buffer. */
    method Print(v: Json) returns (ok: bool, text: Bytes)
      requires Valid() && offset == 0 && depth == 0 && Printable(v)
      modifies this, buffer
      ensures ok ==> text == Text(v, 0, format)
      ensures !ok ==> noalloc || |Text(v, 0, format)| + 2 > INT_MAX
    {
      hide Text;
      TextNoNul(v, 0, format);
      ok := PrintValue(v);
      if !ok {
        return false, [];
      }
      assert [] + Text(v, 0, format) == Text(v, 0, format);
      Advance([], Text(v, 0, format));
      text := buffer[..offset];
    }
  }

  function Separator(last: bool, format: bool): Bytes {
    if last then [] else if format then [COMMA, SPACE] else [COMMA]
  }

  function MemberSeparator(last: bool, format: bool): Bytes {
    (if last then [] else [COMMA]) + (if format then [NEWLINE] else [])
  }

  function NameText(name: Bytes, depth: nat, format: bool): Bytes {
    (if format then Tabs(depth) else []) + Quoted(name) + ([COLON] + if format then [TAB] else [])
  }

  lemma MemberIsNameAndValue(m: Member, d: nat, format: bool)
    requires Numbers32(m.value)
    ensures MemberText(m, d, format) == NameText(m.name, d, format) + Text(m.value, d, format)
  {
    hide Text, Quoted, Tabs;
  }

  lemma TabsLength(n: nat)
    ensures |Tabs(n)| == n
  {
  }

  lemma ItemsTail(items: seq<Json>, i: nat, d: nat, format: bool)
    requires Numbers32(Arr(items)) && i <= |items|
    ensures Numbers32(Arr(items[i..]))
    ensures i == 0 ==> items[i..] == items
    ensures i < |items| ==>
              && Numbers32(Arr(items[i + 1..]))
              && ItemsText(items[i..], d, format) ==
                 Text(items[i], d, format) + Separator(i + 1 == |items|, format) + ItemsText(items[i + 1..], d, format)
  {
    hide Text;
    if i < |items| {
      assert items[i..][0] == items[i] && items[i..][1..] == items[i + 1..];
      if i + 1 == |items| {
        assert ItemsText(items[i + 1..], d, format) == [];
        assert Text(items[i], d, format) + [] + [] == Text(items[i], d, format);
      }
    }
  }

  lemma ItemsEnd(items: seq<Json>, d: nat, format: bool)
    requires Numbers32(Arr(items))
    ensures ItemsText(items[|items|..], d, format) == []
  {
  }

  function ObjectText(members: seq<Member>, depth: nat, format: bool): Bytes
    requires Numbers32(Obj(members))
  {
    [OPEN_BRACE] + (if format then [NEWLINE] else []) + MembersText(members, depth + 1, format)
    + (if format then Tabs(depth) else []) + [CLOSE_BRACE]
  }

  lemma MembersTail(members: seq<Member>, i: nat, d: nat, format: bool)
    requires Numbers32(Obj(members)) && i <= |members|
    ensures Numbers32(Obj(members[i..]))
    ensures i == 0 ==> members[i..] == members
    ensures i < |members| ==>
              && Numbers32(Obj(members[i + 1..]))
              && MembersText(members[i..], d, format) ==
                 MemberText(members[i], d, format) + MemberSeparator(i + 1 == |members|, format)
                   + MembersText(members[i + 1..], d, format)
  {
    hide MemberText;
    if i < |members| {
      assert members[i..][0] == members[i] && members[i..][1..] == members[i + 1..];
    }
  }

  lemma MembersEnd(members: seq<Member>, d: nat, format: bool)
    requires Numbers32(Obj(members))
    ensures MembersText(members[|members|..], d, format) == []
  {
  }
}

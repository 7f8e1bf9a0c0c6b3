/** The parser as it works: a buffer with a moving offset, and an output buffer filled in place. */
module JsonReader {
  import opened Options
  import opened JsonText
  import opened JsonParse

  // ---------- Why the output buffer of a string is large enough ----------

  /** The first pass, started here, ends at the last byte. */
  ghost predicate InStep(t: Bytes) {
    Scan(t).Some? && Scan(t).value.0 == |t| - 1
  }

  /** How many characters or escapes the first pass saw before the closing quote. */
  ghost function Units(t: Bytes): nat
    requires InStep(t)
  {
    |t| - 1 - Scan(t).value.1
  }

  /**
    * The room that is left suffices for the rest of the input. The second pass may be one byte behind the first one,
    * between a backslash and the byte after it; then there is one byte to spare.
    */
  ghost predicate Room(t: Bytes, room: int) {
    || (t == [] && room >= 0)
    || (InStep(t) && room >= Units(t))
    || (t != [] && InStep(t[1..]) && room >= Units(t[1..]) + 1)
  }

  lemma StepPlain(t: Bytes)
    requires InStep(t) && |t| >= 2 && t[0] != BACKSLASH
    ensures InStep(t[1..]) && Units(t) == 1 + Units(t[1..])
  {
  }

  lemma StepEscape(t: Bytes)
    requires InStep(t) && |t| >= 2 && t[0] == BACKSLASH
    ensures |t| >= 3 && InStep(t[2..]) && Units(t) == 1 + Units(t[2..])
  {
  }

  /** One unit of the first pass. */
  lemma OneUnit(t: Bytes) returns (k: nat)
    requires InStep(t) && |t| >= 2
    ensures k in {1, 2} && k < |t| && InStep(t[k..]) && Units(t) == 1 + Units(t[k..])
    ensures t[0] != BACKSLASH ==> k == 1
  {
    if t[0] == BACKSLASH {
      StepEscape(t);
      k := 2;
    } else {
      StepPlain(t);
      k := 1;
    }
  }

  lemma Drop2(t: Bytes, j: nat, k: nat)
    requires j + k <= |t|
    ensures t[j..][k..] == t[j + k..]
  {
  }

  /** Four bytes hold at least two units; if they end inside an escape, at least three have begun. */
  lemma FourBytes(t: Bytes)
    requires InStep(t) && |t| >= 5
    ensures || (InStep(t[4..]) && Units(t) >= 2 + Units(t[4..]))
            || (|t| >= 6 && InStep(t[5..]) && Units(t) >= 3 + Units(t[5..]))
    ensures t[0] != BACKSLASH && t[1] != BACKSLASH && t[2] != BACKSLASH && t[3] != BACKSLASH ==>
              InStep(t[4..]) && Units(t) == 4 + Units(t[4..])
  {
    hide InStep, Units;
    var at := OneUnit(t);
    var units := 1;
    while at < 4
      invariant 1 <= at <= 5 && at < |t| && InStep(t[at..]) && Units(t) == units + Units(t[at..])
      invariant 1 <= units <= at <= 2 * units
      invariant t[0] != BACKSLASH && t[1] != BACKSLASH && t[2] != BACKSLASH && t[3] != BACKSLASH ==> units == at <= 4
    {
      var k := OneUnit(t[at..]);
      Drop2(t, at, k);
      at, units := at + k, units + 1;
    }
  }

  lemma HexZero(t: Bytes, i: nat)
    requires i + 4 <= |t|
    requires t[i] == BACKSLASH || t[i + 1] == BACKSLASH || t[i + 2] == BACKSLASH || t[i + 3] == BACKSLASH
    ensures Hex4(t, i) == 0
  {
  }

  /** A \\u escape whose digits begin in step writes no more than there is room for. */
  lemma UnicodeFits(t: Bytes, room: int)
    requires |t| >= 3 && InStep(t[2..]) && room >= 1 + Units(t[2..]) && Utf16Literal(t).Some?
    ensures var (out, used) := Utf16Literal(t).value;
            |out| <= room && Room(t[used..], room - |out|)
  {
    var (out, used) := Utf16Literal(t).value;
    var u := t[2..];
    FourBytes(u);
    Drop2(t, 2, 4);
    if u[0] == BACKSLASH || u[1] == BACKSLASH || u[2] == BACKSLASH || u[3] == BACKSLASH {
      HexZero(t, 2);
      hide InStep, Units;
      if !InStep(t[6..]) || Units(u) < 2 + Units(t[6..]) {
        Drop2(t, 2, 5);
        Drop2(t, 6, 1);
      }
    } else if used == 12 {
      SecondHalf(t);
    }
  }

  lemma SecondHalf(t: Bytes)
    requires Utf16Literal(t).Some? && Utf16Literal(t).value.1 == 12
    requires InStep(t[6..])
    ensures InStep(t[12..]) && Units(t[6..]) == 5 + Units(t[12..])
  {
    var u := t[6..];
    StepEscape(u);
    Drop2(t, 6, 2);
    var v := t[8..];
    assert v[0] == t[8] && v[1] == t[9] && v[2] == t[10] && v[3] == t[11];
    if v[0] == BACKSLASH || v[1] == BACKSLASH || v[2] == BACKSLASH || v[3] == BACKSLASH {
      HexZero(t, 8);
    }
    FourBytes(v);
    Drop2(t, 8, 4);
  }

  /** What one turn of the second pass writes, and how much input it takes; None if it fails. */
  ghost function Turn(t: Bytes): Option<(Bytes, nat)>
    requires |t| >= 2
  {
    if t[0] != BACKSLASH then Some(([t[0]], 1))
    else if t[1] == LETTER_U then Utf16Literal(t)
    else if Unescape(t[1]).None? then None
    else Some(([Unescape(t[1]).value], 2))
  }

  lemma DecodeTurn(t: Bytes)
    requires |t| >= 2
    ensures Decode(t) == if Turn(t).None? then None else Prepend(Turn(t).value.0, Decode(t[Turn(t).value.1..]))
  {
  }

  /** Every turn fits, whether the two passes are in step or not. */
  lemma TurnFits(t: Bytes, room: int)
    requires |t| >= 2 && Room(t, room) && Turn(t).Some?
    ensures var (out, used) := Turn(t).value;
            used <= |t| && |out| <= room && Room(t[used..], room - |out|)
  {
    if InStep(t) && room >= Units(t) {
      if t[0] != BACKSLASH {
        StepPlain(t);
      } else {
        StepEscape(t);
        if t[1] == LETTER_U {
          UnicodeFits(t, room);
        }
      }
    } else {
      TurnFitsBehind(t, room);
    }
  }

  lemma TurnFitsBehind(t: Bytes, room: int)
    requires |t| >= 2 && InStep(t[1..]) && room >= Units(t[1..]) + 1 && Turn(t).Some?
    ensures var (out, used) := Turn(t).value;
            used <= |t| && |out| <= room && Room(t[used..], room - |out|)
  {
    var u := t[1..];
    if t[0] == BACKSLASH {
      if |u| == 1 {
        assert t[2..] == [];
      } else {
        var k := OneUnit(u);
        Drop2(t, 1, k);
        Drop2(t, 2, k - 1);
        if t[1] == LETTER_U {
          UnicodeFits(t, room);
        }
      }
    }
  }

  /**
    * For every input, the second pass writes fewer bytes than the allocation length that the first pass computes
    * (string length plus one, less the backslashes), even where the passes are out of step.
    */
  lemma {:induction false} DecodeBound(t: Bytes, room: int)
    requires Room(t, room) && Decode(t).Some?
    ensures |Decode(t).value| <= room
    decreases |t|
  {
    if |t| >= 2 {
      DecodeTurn(t);
      TurnFits(t, room);
      var (out, used) := Turn(t).value;
      DecodeBound(t[used..], room - |out|);
    }
  }

  lemma ScanStep(t: Bytes)
    ensures t == [] ==> Scan(t).None?
    ensures t != [] && t[0] == QUOTE ==> Scan(t) == Some((0, 0))
    ensures t != [] && t[0] != QUOTE && t[0] != BACKSLASH ==>
              Scan(t) == if Scan(t[1..]).None? then None else Some((Scan(t[1..]).value.0 + 1, Scan(t[1..]).value.1))
    ensures t != [] && t[0] == BACKSLASH ==>
              Scan(t) == if |t| < 2 || Scan(t[2..]).None? then None
                         else Some((Scan(t[2..]).value.0 + 2, Scan(t[2..]).value.1 + 1))
  {
  }

  lemma {:induction false} ScanPrefix(s: Bytes)
    requires Scan(s).Some?
    ensures var (n, k) := Scan(s).value; Scan(s[..n + 1]) == Some((n, k))
    decreases |s|
  {
    hide Scan;
    ScanStep(s);
    var (n, k) := Scan(s).value;
    var t := s[..n + 1];
    ScanStep(t);
    assert t[0] == s[0];
    if s[0] == QUOTE {
    } else if s[0] != BACKSLASH {
      ScanPrefix(s[1..]);
      assert t[1..] == s[1..][..n];
    } else {
      ScanPrefix(s[2..]);
      assert t[2..] == s[2..][..n - 1];
    }
  }

  lemma StringFitsAllocation(s: Bytes)
    requires Scan(s).Some?
    ensures var (n, skipped) := Scan(s).value;
            var allocation := n + 1 - skipped;
            Decode(s[..n + 1]).Some? ==> |Decode(s[..n + 1]).value| < allocation
  {
    var (n, k) := Scan(s).value;
    ScanPrefix(s);
    if Decode(s[..n + 1]).Some? {
      DecodeBound(s[..n + 1], n - k);
    }
  }

  // ---------- The buffer ----------

  class ParseBuffer {
    const content: Bytes
    var offset: nat
    var depth: nat

    constructor (input: Bytes)
      ensures content == input && offset == 0 && depth == 0
    {
      content := input;
      offset, depth := 0, 0;
    }

    ghost predicate Valid()
      reads this
    {
      offset <= |content|
    }

    method SkipWhitespace()
      requires Valid()
      modifies this
      ensures Valid() && depth == old(depth) && offset >= old(offset)
      ensures content[offset..] == SkipWs(content[old(offset)..])
    {
      if offset >= |content| {
        return;
      }
      ghost var goal := SkipWs(content[offset..]);
      while offset < |content| && content[offset] <= SPACE
        invariant old(offset) <= offset <= |content| && depth == old(depth)
        invariant offset < |content| ==> SkipWs(content[offset..]) == goal
        invariant offset == |content| ==> offset > old(offset) && goal == content[offset - 1..]
      {
        assert content[offset..][1..] == content[offset + 1..];
        offset := offset + 1;
      }
      if offset == |content| {
        offset := offset - 1;
      }
    }

    method ParseHex4(i: nat) returns (h: nat)
      requires i + 4 <= |content|
      ensures h == Hex4(content, i)
    {
      h := 0;
      ghost var a, b, c := HexValue(content[i]), HexValue(content[i + 1]), HexValue(content[i + 2]);
      for k := 0 to 4
        invariant k >= 1 ==> a.Some?
        invariant k >= 2 ==> b.Some?
        invariant k >= 3 ==> c.Some?
        invariant k == 0 ==> h == 0
        invariant k == 1 ==> h == a.value * 16
        invariant k == 2 ==> h == (a.value * 16 + b.value) * 16
        invariant k == 3 ==> h == ((a.value * 16 + b.value) * 16 + c.value) * 16
        invariant k == 4 ==> h == Hex4(content, i)
      {
        var d := HexValue(content[i + k]);
        if d.None? {
          return 0;
        }
        h := h + d.value;
        if k < 3 {
          h := h * 16;
        }
      }
    }

    /** Writes the UTF-8 bytes of a code point from the last one back to the first. */
    method EncodeUtf8(cp: nat, output: array<Byte>, pos: nat) returns (length: nat)
      requires cp <= 0x10ffff && pos + |Utf8(cp)| <= output.Length
      modifies output
      ensures length == |Utf8(cp)|
      ensures output[..pos] == old(output[..pos]) && output[pos..pos + length] == Utf8(cp)
    {
      var mark := 0;
      if cp < 0x80 {
        length := 1;
      } else if cp < 0x800 {
        length, mark := 2, 0xc0;
      } else if cp < 0x10000 {
        length, mark := 3, 0xe0;
      } else {
        length, mark := 4, 0xf0;
      }
      ghost var goal := Utf8(cp);
      var rest := cp;
      var k := length - 1;
      while k > 0
        invariant 0 <= k < length && forall j :: k < j < length ==> output[pos + j] == goal[j]
        invariant output[..pos] == old(output[..pos])
        invariant k == length - 1 ==> rest == cp
        invariant k == length - 2 ==> rest == cp / 64
        invariant k == length - 3 ==> rest == cp / 4096
        invariant k == length - 4 ==> rest == cp / 262144
      {
        output[pos + k] := 0x80 + rest % 64;
        rest := rest / 64;
        k := k - 1;
      }
      output[pos] := mark + rest;
      assert forall j :: 0 <= j < length ==> output[pos..pos + length][j] == goal[j];
    }

    lemma HexInside(ip: nat, end: nat, k: nat)
      requires ip + k + 4 <= end < |content|
      ensures Hex4(content, ip + k) == Hex4(content[ip..end + 1], k)
    {
      ghost var t := content[ip..end + 1];
      assert t[k] == content[ip + k] && t[k + 1] == content[ip + k + 1];
      assert t[k + 2] == content[ip + k + 2] && t[k + 3] == content[ip + k + 3];
    }

    /** The code point of the escape at `ip` and the length of the escape, zero when it is ill-formed. */
    method CodePointAt(ip: nat, end: nat) returns (cp: nat, used: nat)
      requires ip < end < |content|
      ensures cp <= 0x10ffff
      ensures Utf16Literal(content[ip..end + 1]) == if used == 0 then None else Some((Utf8(cp), used))
    {
      hide Utf8, Hex4;
      ghost var t := content[ip..end + 1];
      if end - ip < 6 {
        return 0, 0;
      }
      var first := ParseHex4(ip + 2);
      HexInside(ip, end, 2);
      if 0xdc00 <= first <= 0xdfff {
        return 0, 0;
      }
      if 0xd800 <= first <= 0xdbff {
        if end - (ip + 6) < 6 {
          return 0, 0;
        }
        if content[ip + 6] != BACKSLASH || content[ip + 7] != LETTER_U {
          return 0, 0;
        }
        var second := ParseHex4(ip + 8);
        HexInside(ip, end, 8);
        if second < 0xdc00 || second > 0xdfff {
          return 0, 0;
        }
        return 0x10000 + (first - 0xd800) * 1024 + (second - 0xdc00), 12;
      }
      return first, 6;
    }

    /** Converts the escape at `ip` and writes its bytes at `pos`; a length of zero means that it is ill-formed. */
    method Utf16LiteralToUtf8(ip: nat, end: nat, output: array<Byte>, pos: nat) returns (used: nat, written: nat)
      requires ip < end < |content|
      requires pos <= output.Length
      requires var u := Utf16Literal(content[ip..end + 1]); u.Some? ==> pos + |u.value.0| <= output.Length
      modifies output
      ensures output[..pos] == old(output[..pos])
      ensures var u := Utf16Literal(content[ip..end + 1]);
              && (used == 0 <==> u.None?)
              && (u.Some? ==> used == u.value.1 && written == |u.value.0| && output[pos..pos + written] == u.value.0)
    {
      hide Utf8, Utf16Literal;
      written := 0;
      var codepoint;
      codepoint, used := CodePointAt(ip, end);
      if used != 0 {
        written := EncodeUtf8(codepoint, output, pos);
      }
    }

    /** The first pass: finds the closing quote and counts the backslashes. */
    method FindEnd() returns (end: nat, skipped: nat, found: bool)
      requires Valid() && offset < |content| && content[offset] == QUOTE
      ensures found <==> Scan(content[offset + 1..]).Some?
      ensures found ==> Scan(content[offset + 1..]).value == (end - offset - 1, skipped) && offset < end < |content|
    {
      hide Scan;
      end, skipped, found := offset + 1, 0, false;
      ghost var goal := Scan(content[end..]);
      while end < |content| && content[end] != QUOTE
        invariant offset < end <= |content| && skipped <= end - offset - 1
        invariant var here := Scan(content[end..]);
                  && (goal.Some? <==> here.Some?)
                  && (here.Some? ==> goal.value == (here.value.0 + (end - offset - 1), here.value.1 + skipped))
      {
        ScanStep(content[end..]);
        if content[end] == BACKSLASH {
          if end + 1 >= |content| {
            return;
          }
          assert content[end..][2..] == content[end + 2..];
          skipped, end := skipped + 1, end + 2;
        } else {
          assert content[end..][1..] == content[end + 1..];
          end := end + 1;
        }
      }
      found := end < |content|;
      ScanStep(content[end..]);
    }

    /** One turn of the second pass; a length of zero means that the escape is ill-formed. */
    method DecodeOne(output: array<Byte>, ip: nat, end: nat, pos: nat) returns (used: nat, written: nat)
      requires ip < end < |content| && pos <= output.Length
      requires var u := Turn(content[ip..end + 1]); u.Some? ==> pos + |u.value.0| <= output.Length
      modifies output
      ensures output[..pos] == old(output[..pos])
      ensures var u := Turn(content[ip..end + 1]);
              && (used == 0 <==> u.None?)
              && (u.Some? ==> used == u.value.1 && written == |u.value.0| && output[pos..pos + written] == u.value.0)
    {
      ghost var t := content[ip..end + 1];
      assert t[0] == content[ip] && t[1] == content[ip + 1];
      hide Utf16Literal, Unescape;
      used, written := 2, 1;
      if content[ip] != BACKSLASH {
        output[pos] := content[ip];
        used := 1;
      } else if content[ip + 1] == LETTER_U {
        LiteralUses(t);
        used, written := Utf16LiteralToUtf8(ip, end, output, pos);
      } else {
        var b := Unescape(content[ip + 1]);
        if b.None? {
          return 0, 0;
        }
        output[pos] := b.value;
      }
    }

    lemma LiteralUses(t: Bytes)
      ensures Utf16Literal(t).Some? ==> Utf16Literal(t).value.1 > 0
    {
    }

    /** The second pass, into a buffer of the size that the first pass computed. Every write is inside the buffer. */
    method DecodeInto(output: array<Byte>, end: nat) returns (ok: bool, written: nat)
      requires Valid() && offset + 1 <= end < |content|
      requires Room(content[offset + 1..end + 1], output.Length - 2)
      requires output.Length >= 2
      modifies output
      ensures ok <==> Decode(content[offset + 1..end + 1]).Some?
      ensures ok ==> written < output.Length - 1 && output[..written] == Decode(content[offset + 1..end + 1]).value
                     && output[written] == 0
    {
      hide Room, Decode, Turn;
      ghost var goal := Decode(content[offset + 1..end + 1]);
      var ip: nat, pos: nat := offset + 1, 0;
      assert goal.Some? ==> output[..0] + goal.value == goal.value;
      while ip < end
        invariant offset + 1 <= ip <= end + 1 && pos < output.Length - 1
        invariant Room(content[ip..end + 1], output.Length - 2 - pos)
        invariant goal == Prepend(output[..pos], Decode(content[ip..end + 1]))
        decreases end - ip
      {
        ghost var t := content[ip..end + 1];
        ghost var before := output[..pos];
        DecodeTurn(t);
        if Turn(t).Some? {
          TurnFits(t, output.Length - 2 - pos);
        }
        var used, count := DecodeOne(output, ip, end, pos);
        if used == 0 {
          return false, 0;
        }
        assert t[used..] == content[ip + used..end + 1];
        PrependTwice(before, Turn(t).value.0, Decode(t[used..]));
        assert output[..pos + count] == before + output[pos..pos + count];
        ip, pos := ip + used, pos + count;
      }
      DecodeEnd(content[ip..end + 1]);
      output[pos] := 0;
      return true, pos;
    }

    lemma DecodeEnd(t: Bytes)
      requires |t| <= 1
      ensures Decode(t) == Some([])
    {
    }

    lemma PrependTwice(a: Bytes, b: Bytes, r: Option<Bytes>)
      ensures Prepend(a, Prepend(b, r)) == Prepend(a + b, r)
    {
      if r.Some? {
        assert a + (b + r.value) == a + b + r.value;
      }
    }

    /** What a parsing method leaves behind: the value and the rest of the input that the function gives. */
    ghost predicate Agrees<T(!new)>(r: Option<T>, p: Parsed<T>)
      reads this
    {
      && offset <= |content|
      && (r.None? <==> p.Fail?)
      && (r.Some? ==> p == Ok(r.value, content[offset..]))
    }

    method ParseString() returns (r: Option<Bytes>)
      requires Valid() && offset < |content|
      modifies this
      ensures Agrees(r, JsonParse.ParseString(content[old(offset)..])) && depth == old(depth)
    {
      hide Scan, Decode, Room;
      ghost var s := content[offset..];
      if content[offset] != QUOTE {
        return None;
      }
      assert s[1..] == content[offset + 1..];
      var end, skipped, found := FindEnd();
      if !found {
        return None;
      }
      var allocation := end - offset - skipped;
      RoomAllocated(s[1..]);
      assert content[offset + 1..end + 1] == s[1..][..end - offset] == s[1..end - offset + 1];
      var output := new Byte[allocation + 1];
      var ok, written := DecodeInto(output, end);
      if !ok {
        return None;
      }
      assert s[end - offset + 1..] == content[end + 1..];
      offset := end + 1;
      return Some(output[..written]);
    }

    lemma RoomAllocated(t: Bytes)
      requires Scan(t).Some?
      ensures var (n, skipped) := Scan(t).value; 2 * skipped <= n && Room(t[..n + 1], n - skipped)
    {
      ScanPrefix(t);
    }

    /** The length of the run of number bytes that is copied out, at most 63. */
    method CountNumberBytes() returns (i: nat)
      requires Valid()
      ensures i == NumberRun(content[offset..], 63)
    {
      i := 0;
      while i < 63 && offset + i < |content| && InNumber(content[offset + i])
        invariant 0 <= i <= 63 && offset + i <= |content|
        invariant NumberRun(content[offset..], 63) == i + NumberRun(content[offset + i..], 63 - i)
      {
        assert content[offset + i..][1..] == content[offset + i + 1..];
        i := i + 1;
      }
    }

    method ParseNumber() returns (r: Option<real>)
      requires Valid()
      modifies this
      ensures Agrees(r, JsonParse.ParseNumber(content[old(offset)..])) && depth == old(depth)
    {
      hide Strtod, NumberRun;
      ghost var s := content[offset..];
      var i := CountNumberBytes();
      var number := content[offset..offset + i];
      assert s[..i] == number;
      var x := Strtod(number);
      if x.None? {
        return None;
      }
      assert s[x.value.1..] == content[offset + x.value.1..];
      offset := offset + x.value.1;
      return Some(x.value.0);
    }

    predicate Reads(word: Bytes)
      reads this
    {
      offset + |word| <= |content| && content[offset..offset + |word|] == word
    }

    lemma ReadsIsPrefix(word: Bytes)
      requires Valid()
      ensures Reads(word) <==> StartsWith(content[offset..], word)
      ensures Reads(word) ==> content[offset..][|word|..] == content[offset + |word|..]
    {
      if offset + |word| <= |content| {
        assert content[offset..][..|word|] == content[offset..offset + |word|];
      }
    }

    /** The byte at the offset, or -1 at the end of the input. */
    function Here(): int
      requires Valid()
      reads this
    {
      if offset < |content| then content[offset] else -1
    }

    method ParseValue() returns (r: Option<Json>)
      requires Valid()
      modifies this
      ensures Agrees(r, JsonParse.ParseValue(content[old(offset)..], old(depth)))
      ensures r.Some? ==> offset > old(offset) && depth == old(depth)
      decreases |content| - offset, 1
    {
      hide JsonParse.ParseString, JsonParse.ParseNumber, ParseItems, ParseMembers, StartsWith;
      ghost var s := content[offset..];
      ReadsIsPrefix(NULL_TEXT);
      ReadsIsPrefix(FALSE_TEXT);
      ReadsIsPrefix(TRUE_TEXT);
      assert Here() == At(s);
      if Reads(NULL_TEXT) {
        offset := offset + 4;
        return Some(Null);
      }
      if Reads(FALSE_TEXT) {
        offset := offset + 5;
        return Some(Bool(false));
      }
      if Reads(TRUE_TEXT) {
        offset := offset + 4;
        return Some(Bool(true));
      }
      if Here() == QUOTE {
        var b := ParseString();
        return if b.None? then None else Some(Str(b.value));
      }
      if Here() == MINUS || 48 <= Here() <= 57 {
        var n := ParseNumber();
        return if n.None? then None else Some(Num(n.value));
      }
      if Here() == OPEN_BRACKET {
        r := ParseArray();
        return;
      }
      if Here() == OPEN_BRACE {
        r := ParseObject();
        return;
      }
      return None;
    }

    method ParseArray() returns (r: Option<Json>)
      requires Valid() && offset < |content| && content[offset] == OPEN_BRACKET
      modifies this
      ensures Agrees(r, ArrayAt(content[old(offset)..], old(depth)))
      ensures r.Some? ==> offset > old(offset) && depth == old(depth)
      decreases |content| - offset, 0
    {
      hide JsonParse.ParseValue, ParseItems, SkipWs;
      ghost var s := content[offset..];
      if depth >= NESTING_LIMIT {
        return None;
      }
      depth := depth + 1;
      offset := offset + 1;
      assert s[1..] == content[offset..];
      NotEmptyAfterSkip(content[offset..]);
      SkipWhitespace();
      ghost var s1 := content[offset..];
      if Here() == CLOSE_BRACKET {
        depth := depth - 1;
        offset := offset + 1;
        assert s1[1..] == content[offset..];
        return Some(Arr([]));
      }
      if offset >= |content| {
        offset := offset - 1;
        return None;
      }
      offset := offset - 1;
      var items := ParseArrayItems();
      if items.None? {
        return None;
      }
      depth := depth - 1;
      return Some(Arr(items.value));
    }

    /** The comma-separated items, from the byte before the first one to the closing bracket. */
    method ParseArrayItems() returns (r: Option<seq<Json>>)
      requires Valid() && offset < |content|
      modifies this
      ensures Agrees(r, ParseItems(content[old(offset) + 1..], old(depth)))
      ensures r.Some? ==> offset > old(offset) + 1 && depth == old(depth)
      decreases |content| - offset - 1, 3
    {
      hide JsonParse.ParseValue, ParseItems, SkipWs;
      var items: seq<Json> := [];
      ghost var goal := ParseItems(content[offset + 1..], depth);
      assert goal.Ok? ==> [] + goal.value == goal.value;
      ghost var d := depth;
      var more := true;
      while more
        invariant old(offset) <= offset <= |content| && depth == d
        invariant more ==> offset < |content| && goal == Join(items, ParseItems(content[offset + 1..], d))
        invariant !more ==>
                    && offset > old(offset)
                    && goal == if Here() == CLOSE_BRACKET then Ok(items, content[offset + 1..]) else Fail
        decreases more, |content| - offset
      {
        ghost var before := items;
        offset := offset + 1;
        ghost var rest := content[offset..];
        ItemsStep(before, rest, d);
        SkipWhitespace();
        var v := ParseValue();
        if v.None? {
          return None;
        }
        items := items + [v.value];
        SkipWhitespace();
        more := Here() == COMMA;
        assert offset < |content| ==> content[offset..][1..] == content[offset + 1..];
      }
      if Here() != CLOSE_BRACKET {
        return None;
      }
      offset := offset + 1;
      return Some(items);
    }

    method ParseObject() returns (r: Option<Json>)
      requires Valid() && offset < |content| && content[offset] == OPEN_BRACE
      modifies this
      ensures Agrees(r, ObjectAt(content[old(offset)..], old(depth)))
      ensures r.Some? ==> offset > old(offset) && depth == old(depth)
      decreases |content| - offset, 0
    {
      hide JsonParse.ParseValue, JsonParse.ParseString, ParseMembers, ParseMember, SkipWs;
      ghost var s := content[offset..];
      if depth >= NESTING_LIMIT {
        return None;
      }
      depth := depth + 1;
      offset := offset + 1;
      assert s[1..] == content[offset..];
      SkipWhitespace();
      ghost var s1 := content[offset..];
      if Here() == CLOSE_BRACE {
        depth := depth - 1;
        offset := offset + 1;
        assert s1[1..] == content[offset..];
        return Some(Obj([]));
      }
      if offset >= |content| {
        offset := offset - 1;
        return None;
      }
      offset := offset - 1;
      var members := ParseObjectMembers();
      if members.None? {
        return None;
      }
      depth := depth - 1;
      return Some(Obj(members.value));
    }

    /** The comma-separated members, from the byte before the first one to the closing brace. */
    method ParseObjectMembers() returns (r: Option<seq<Member>>)
      requires Valid() && offset < |content|
      modifies this
      ensures Agrees(r, ParseMembers(content[old(offset) + 1..], old(depth)))
      ensures r.Some? ==> offset > old(offset) + 1 && depth == old(depth)
      decreases |content| - offset - 1, 3
    {
      hide JsonParse.ParseValue, JsonParse.ParseString, ParseMembers, ParseMember, SkipWs;
      var members: seq<Member> := [];
      ghost var goal := ParseMembers(content[offset + 1..], depth);
      assert goal.Ok? ==> [] + goal.value == goal.value;
      ghost var d := depth;
      var more := true;
      while more
        invariant old(offset) <= offset <= |content| && depth == d
        invariant more ==> offset < |content| && goal == Join(members, ParseMembers(content[offset + 1..], d))
        invariant !more ==>
                    && offset > old(offset)
                    && goal == if Here() == CLOSE_BRACE then Ok(members, content[offset + 1..]) else Fail
        decreases more, |content| - offset
      {
        ghost var before := members;
        ghost var rest := content[offset + 1..];
        MembersStep(before, rest, d);
        if offset + 1 >= |content| {
          EmptyMember(rest, d);
          return None;
        }
        var m := ParseOneMember();
        if m.None? {
          return None;
        }
        members := members + [m.value];
        SkipWhitespace();
        more := Here() == COMMA;
        assert offset < |content| ==> content[offset..][1..] == content[offset + 1..];
      }
      if Here() != CLOSE_BRACE {
        return None;
      }
      offset := offset + 1;
      return Some(members);
    }

    /** One name and its value, from the byte before it. */
    method ParseOneMember() returns (r: Option<Member>)
      requires Valid() && offset + 1 < |content|
      modifies this
      ensures Agrees(r, ParseMember(content[old(offset) + 1..], old(depth)))
      ensures r.Some? ==> offset > old(offset) + 1 && depth == old(depth)
      decreases |content| - offset - 1, 2
    {
      hide JsonParse.ParseValue, JsonParse.ParseString, SkipWs;
      offset := offset + 1;
      SkipWhitespace();
      NotEmptyAfterSkip(content[old(offset) + 1..]);
      var name := ParseString();
      if name.None? {
        return None;
      }
      SkipWhitespace();
      if Here() != COLON {
        return None;
      }
      assert content[offset..][1..] == content[offset + 1..];
      offset := offset + 1;
      SkipWhitespace();
      var v := ParseValue();
      return if v.None? then None else Some(Member(name.value, v.value));
    }

    /** cJSON_ParseWithLengthOpts */
    method ParseDocument(wholeText: bool) returns (r: Option<Json>)
      requires offset == 0 && depth == 0
      modifies this
      ensures r == Parse(content, wholeText)
    {
      hide JsonParse.ParseValue, SkipWs;
      if |content| == 0 {
        return None;
      }
      if |content| > 4 && content[..3] == [0xef, 0xbb, 0xbf] {
        offset := offset + 3;
      }
      assert content[offset..] == SkipBom(content);
      SkipWhitespace();
      r := ParseValue();
      if r.None? {
        return;
      }
      if wholeText {
        SkipWhitespace();
        if Here() != 0 {
          return None;
        }
      }
    }
  }

  // ---------- Lists as the loops build them ----------

  ghost function Join<T>(head: seq<T>, r: Parsed<seq<T>>): Parsed<seq<T>> {
    if r.Fail? then Fail else Ok(head + r.value, r.rest)
  }

  ghost function ArrayAt(s: Bytes, depth: nat): Parsed<Json>
    requires s != []
  {
    if depth >= NESTING_LIMIT then Fail
    else
      var s1 := SkipWs(s[1..]);
      if At(s1) == CLOSE_BRACKET then Ok(Arr([]), s1[1..])
      else if s1 == [] then Fail
      else
        var r := ParseItems(s1, depth + 1);
        if r.Fail? then Fail else Ok(Arr(r.value), r.rest)
  }

  ghost function ObjectAt(s: Bytes, depth: nat): Parsed<Json>
    requires s != []
  {
    if depth >= NESTING_LIMIT then Fail
    else
      var s1 := SkipWs(s[1..]);
      if At(s1) == CLOSE_BRACE then Ok(Obj([]), s1[1..])
      else if s1 == [] then Fail
      else
        var r := ParseMembers(s1, depth + 1);
        if r.Fail? then Fail else Ok(Obj(r.value), r.rest)
  }

  lemma ItemsStep(before: seq<Json>, rest: Bytes, d: nat)
    ensures var v := JsonParse.ParseValue(SkipWs(rest), d);
            Join(before, ParseItems(rest, d)) ==
            if v.Fail? then Fail
            else
              var s1 := SkipWs(v.rest);
              if At(s1) == COMMA then Join(before + [v.value], ParseItems(s1[1..], d))
              else if At(s1) == CLOSE_BRACKET then Ok(before + [v.value], s1[1..])
              else Fail
  {
    hide JsonParse.ParseValue, SkipWs;
    var v := JsonParse.ParseValue(SkipWs(rest), d);
    if v.Ok? {
      var s1 := SkipWs(v.rest);
      if At(s1) == COMMA && ParseItems(s1[1..], d).Ok? {
        assert before + ([v.value] + ParseItems(s1[1..], d).value) == before + [v.value] + ParseItems(s1[1..], d).value;
      }
    }
  }

  lemma MembersStep(before: seq<Member>, rest: Bytes, d: nat)
    ensures var m := ParseMember(rest, d);
            Join(before, ParseMembers(rest, d)) ==
            if m.Fail? then Fail
            else
              var s1 := SkipWs(m.rest);
              if At(s1) == COMMA then Join(before + [m.value], ParseMembers(s1[1..], d))
              else if At(s1) == CLOSE_BRACE then Ok(before + [m.value], s1[1..])
              else Fail
  {
    hide ParseMember, SkipWs;
    var m := ParseMember(rest, d);
    if m.Ok? {
      var s1 := SkipWs(m.rest);
      if At(s1) == COMMA && ParseMembers(s1[1..], d).Ok? {
        assert before + ([m.value] + ParseMembers(s1[1..], d).value)
                 == before + [m.value] + ParseMembers(s1[1..], d).value;
      }
    }
  }

  lemma EmptyMember(rest: Bytes, d: nat)
    requires rest == []
    ensures ParseMember(rest, d).Fail?
  {
  }

  lemma NotEmptyAfterSkip(s: Bytes)
    ensures s != [] ==> SkipWs(s) != []
  {
  }
}

/** JSON trees and the text that print_value produces for them. */
module JsonText {

  type Byte = b: int | 0 <= b < 256

  type Bytes = seq<Byte>

  datatype Json =
    | Null
    | Bool(b: bool)
    | Num(n: real)
    | Str(s: Bytes)
    | Arr(items: seq<Json>)
    | Obj(members: seq<Member>)

  datatype Member = Member(name: Bytes, value: Json)

  const QUOTE: Byte := 34
  const COMMA: Byte := 44
  const MINUS: Byte := 45
  const COLON: Byte := 58
  const OPEN_BRACKET: Byte := 91
  const BACKSLASH: Byte := 92
  const CLOSE_BRACKET: Byte := 93
  const OPEN_BRACE: Byte := 123
  const CLOSE_BRACE: Byte := 125
  const LETTER_U: Byte := 117
  const SPACE: Byte := 32
  const TAB: Byte := 9
  const NEWLINE: Byte := 10

  const NULL_TEXT: Bytes := [110, 117, 108, 108]
  const TRUE_TEXT: Bytes := [116, 114, 117, 101]
  const FALSE_TEXT: Bytes := [102, 97, 108, 115, 101]

  const INT_MAX := 0x7fff_ffff
  const NESTING_LIMIT := 1000

  // ---------- Strings ----------

  /** The letter after the backslash of a two-character escape, or 0 if the byte has none. */
  function ShortEscape(b: Byte): Byte {
    if b == QUOTE || b == BACKSLASH then b
    else if b == 8 then 98        // \b
    else if b == 12 then 102      // \f
    else if b == 10 then 110      // \n
    else if b == 13 then 114      // \r
    else if b == 9 then 116       // \t
    else 0
  }

  function HexDigit(d: nat): Byte
    requires d < 16
  {
    if d < 10 then 48 + d else 87 + d
  }

  function EscapeByte(b: Byte): (r: Bytes)
    ensures |r| in {1, 2, 6}
  {
    if ShortEscape(b) != 0 then [BACKSLASH, ShortEscape(b)]
    else if b < 32 then [BACKSLASH, LETTER_U, 48, 48, HexDigit(b / 16), HexDigit(b % 16)]
    else [b]
  }

  function Escape(s: Bytes): Bytes {
    if s == [] then [] else EscapeByte(s[0]) + Escape(s[1..])
  }

  function Quoted(s: Bytes): Bytes {
    [QUOTE] + Escape(s) + [QUOTE]
  }

  // ---------- Integers ----------

  function NatText(n: nat): (r: Bytes)
    ensures |r| >= 1 && forall i :: 0 <= i < |r| ==> 48 <= r[i] <= 57
  {
    if n < 10 then [48 + n] else NatText(n / 10) + [48 + n % 10]
  }

  /** What "%d" prints. */
  function IntText(i: int): Bytes {
    if i < 0 then [MINUS] + NatText(-i) else NatText(i)
  }

  predicate IsInt32(n: real) {
    n == n.Floor as real && -0x8000_0000 <= n.Floor <= INT_MAX
  }

  // ---------- Values ----------

  function Tabs(n: nat): Bytes {
    seq(n, _ => TAB)
  }

  /** The text of a value printed at a nesting depth. */
  function Text(v: Json, depth: nat, format: bool): Bytes
    requires Numbers32(v)
    decreases v, 1
  {
    match v
    case Null => NULL_TEXT
    case Bool(b) => if b then TRUE_TEXT else FALSE_TEXT
    case Num(n) => IntText(n.Floor)
    case Str(s) => Quoted(s)
    case Arr(items) => [OPEN_BRACKET] + ItemsText(items, depth + 1, format) + [CLOSE_BRACKET]
    case Obj(members) =>
      [OPEN_BRACE] + (if format then [NEWLINE] else []) + MembersText(members, depth + 1, format)
      + (if format then Tabs(depth) else []) + [CLOSE_BRACE]
  }

  function ItemsText(items: seq<Json>, depth: nat, format: bool): Bytes
    requires forall i :: 0 <= i < |items| ==> Numbers32(items[i])
    decreases items, 0
  {
    if items == [] then []
    else if |items| == 1 then Text(items[0], depth, format)
    else Text(items[0], depth, format) + (if format then [COMMA, SPACE] else [COMMA])
         + ItemsText(items[1..], depth, format)
  }

  function MembersText(members: seq<Member>, depth: nat, format: bool): Bytes
    requires forall i :: 0 <= i < |members| ==> Numbers32(members[i].value)
    decreases members, 0
  {
    if members == [] then []
    else
      MemberText(members[0], depth, format)
      + (if |members| > 1 then [COMMA] else [])
      + (if format then [NEWLINE] else [])
      + MembersText(members[1..], depth, format)
  }

  function MemberText(m: Member, depth: nat, format: bool): Bytes
    requires Numbers32(m.value)
    decreases m, 2
  {
    (if format then Tabs(depth) else []) + Quoted(m.name) + [COLON] + (if format then [TAB] else [])
    + Text(m.value, depth, format)
  }

  /** Every number of the tree is a 32-bit integer. */
  predicate Numbers32(v: Json) {
    match v
    case Num(n) => IsInt32(n)
    case Arr(items) => forall i :: 0 <= i < |items| ==> Numbers32(items[i])
    case Obj(members) => forall i :: 0 <= i < |members| ==> Numbers32(members[i].value)
    case _ => true
  }

  predicate NoNul(s: Bytes) {
    0 !in s
  }

  /** No string or name of the tree holds a zero byte. */
  predicate StringsNoNul(v: Json) {
    match v
    case Str(s) => NoNul(s)
    case Arr(items) => forall i :: 0 <= i < |items| ==> StringsNoNul(items[i])
    case Obj(members) => forall i :: 0 <= i < |members| ==> NoNul(members[i].name) && StringsNoNul(members[i].value)
    case _ => true
  }

  /** The arrays and objects of the tree nest at most `limit` deep. */
  predicate NestsWithin(v: Json, limit: int) {
    match v
    case Arr(items) => limit >= 1 && forall i :: 0 <= i < |items| ==> NestsWithin(items[i], limit - 1)
    case Obj(members) => limit >= 1 && forall i :: 0 <= i < |members| ==> NestsWithin(members[i].value, limit - 1)
    case _ => limit >= 0
  }

  predicate Printable(v: Json) {
    Numbers32(v) && StringsNoNul(v)
  }

  lemma Regrouped(a: Bytes, b: Bytes, c: Bytes)
    ensures a + b + c == a + (b + c)
  {
  }
}

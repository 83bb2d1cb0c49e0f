/**
 JSON texts as they may be written: every value with all its ways of writing it down, what each
 piece of a string stands for, and what it is for a parsed value to hold a written one. Nothing
 here refers to how the parser reads.
 */
module JsonText {
  import opened Options
  import opened JsonMachine

  // ----- UTF-8 -----

  predicate Continues(b: char) {
    128 <= b as int < 192
  }

  /** The code point that these bytes are the shortest UTF-8 form of. */
  function ReadPoint(bs: string): Option<nat> {
    if |bs| == 1 && bs[0] as int < 128 then Some(bs[0] as int)
    else if |bs| == 2 && 192 <= bs[0] as int < 224 && Continues(bs[1]) then
      AtLeast(0x80, (bs[0] as int - 192) * 64 + (bs[1] as int - 128))
    else if |bs| == 3 && 224 <= bs[0] as int < 240 && Continues(bs[1]) && Continues(bs[2]) then
      AtLeast(0x800, (bs[0] as int - 224) * 4096 + (bs[1] as int - 128) * 64 + (bs[2] as int - 128))
    else if |bs| == 4 && 240 <= bs[0] as int < 248 && Continues(bs[1]) && Continues(bs[2]) && Continues(bs[3]) then
      AtLeast(0x10000, (bs[0] as int - 240) * 262144 + (bs[1] as int - 128) * 4096 +
                       (bs[2] as int - 128) * 64 + (bs[3] as int - 128))
    else None
  }

  function AtLeast(least: nat, u: nat): Option<nat> {
    if u >= least then Some(u) else None
  }

  /** The parser's bytes for a code point decode to it. */
  lemma Utf8Decodes(u: nat)
    requires u < 0x100000
    ensures ReadPoint(Utf8(u)) == Some(u)
  {
    if 0x7F < u <= 0x7FF {
      Utf8Two(u);
    } else if 0x7FF < u <= 0xFFFF {
      Utf8Three(u);
    } else if 0xFFFF < u {
      Utf8Four(u);
    }
  }

  lemma Utf8Two(u: nat)
    requires 0x7F < u <= 0x7FF
    ensures ReadPoint(Utf8(u)) == Some(u)
  {
    var a, b := u / 64, u % 64;
    assert u == 64 * a + b && a < 32;
    assert Utf8(u) == [(0xC0 + a) as char, (0x80 + b) as char];
  }

  lemma Utf8Three(u: nat)
    requires 0x7FF < u <= 0xFFFF
    ensures ReadPoint(Utf8(u)) == Some(u)
  {
    var a, b, c := u / 4096, u / 64 % 64, u % 64;
    assert u == 4096 * a + 64 * b + c && a < 16;
    assert Utf8(u) == [(0xE0 + a) as char, (0x80 + b) as char, (0x80 + c) as char];
  }

  lemma Utf8Four(u: nat)
    requires 0xFFFF < u < 0x100000
    ensures ReadPoint(Utf8(u)) == Some(u)
  {
    var a, b, c, d := u / 262144, u / 4096 % 64, u / 64 % 64, u % 64;
    assert u == 262144 * a + 4096 * b + 64 * c + d && a < 4;
    assert Utf8(u) == [(0xF0 + a) as char, (0x80 + b) as char, (0x80 + c) as char, (0x80 + d) as char];
  }

  /** A code point has one form. */
  lemma OneForm(a: string, b: string)
    requires ReadPoint(a) == ReadPoint(b) != None
    ensures a == b
  {
    SameSize(a, b);
    if |a| == 3 {
      Digits64(a[1] as int - 128, a[2] as int - 128, b[1] as int - 128, b[2] as int - 128,
               a[0] as int - 224, b[0] as int - 224);
    } else if |a| == 4 {
      var x, y := (a[0] as int - 240) * 64 + (a[1] as int - 128), (b[0] as int - 240) * 64 + (b[1] as int - 128);
      Digits64(a[2] as int - 128, a[3] as int - 128, b[2] as int - 128, b[3] as int - 128, x, y);
    }
  }

  lemma SameSize(a: string, b: string)
    requires ReadPoint(a) == ReadPoint(b) != None
    ensures |a| == |b|
  {
  }

  lemma Digits64(a1: nat, a2: nat, b1: nat, b2: nat, x: nat, y: nat)
    requires a1 < 64 && a2 < 64 && b1 < 64 && b2 < 64
    requires x * 4096 + a1 * 64 + a2 == y * 4096 + b1 * 64 + b2
    ensures x == y && a1 == b1 && a2 == b2
  {
  }

  /** The bytes of a code point. */
  ghost function PointBytes(u: nat): string {
    if exists bs :: ReadPoint(bs) == Some(u) then
      var bs :| ReadPoint(bs) == Some(u);
      bs
    else ""
  }

  lemma PointBytesAre(u: nat)
    requires u < 0x100000
    ensures PointBytes(u) == Utf8(u)
  {
    Utf8Decodes(u);
    OneForm(PointBytes(u), Utf8(u));
  }

  // ----- strings -----

  /**
   A piece of a string: itself, a two-character escape, a \u escape of a code point, or two \u
   escapes, the first in the surrogates' range.
   */
  datatype Piece =
    | Plain(c: char)
    | Short(c: char)
    | Point(code: nat, digits: string)
    | Pair(u: nat, u2: nat, high: string, low: string)

  /** Four hexadecimal digits, of either case, of a number. */
  predicate HexOf(digits: string, n: nat) {
    && |digits| == 4 && n < 65536
    && HexIs(digits[0], n / 4096) && HexIs(digits[1], n / 256 % 16) && HexIs(digits[2], n / 16 % 16) &&
       HexIs(digits[3], n % 16)
  }

  predicate HexIs(c: char, n: nat) {
    if n < 10 then c as int == '0' as int + n
    else n < 16 && (c as int == 'a' as int + n - 10 || c as int == 'A' as int + n - 10)
  }

  predicate PieceOk(p: Piece) {
    match p
    case Plain(c) => c != '"' && c != '\\' && c != '\0'
    case Short(c) => c != 'u' && c != '\0'
    case Point(code, digits) => HexOf(digits, code) && !(0xD800 <= code < 0xE000)
    case Pair(u, u2, high, low) => HexOf(high, u) && HexOf(low, u2) && 0xD800 <= u < 0xE000
  }

  function PieceText(p: Piece): string {
    match p
    case Plain(c) => [c]
    case _ => ['\\'] + Escape(p)
  }

  /** What follows the backslash. */
  function Escape(p: Piece): string
    requires !p.Plain?
  {
    match p
    case Short(c) => [c]
    case Point(_, digits) => ['u'] + digits
    case Pair(_, _, high, low) => ['u'] + high + ['\\', 'u'] + low
  }

  /** Escapes that stand for another character: backspace, form feed, line feed, carriage return, tabulator. */
  const ESCAPED := map['b' := 8, 'f' := 12, 'n' := 10, 'r' := 13, 't' := 9]

  function ShortFor(c: char): char {
    if c in ESCAPED then ESCAPED[c] as char else c
  }

  /** What the code reads a surrogate pair as: it loses bit 16 of the point when bit 16 of its offset is set. */
  function PairRead(code: nat): nat
  {
    if code >= 0x10000 && (code - 0x10000) / 0x10000 % 2 == 1 then code - 0x10000 else code
  }

  /** The point whose surrogates have the low ten bits of u and u2. */
  function PairCode(u: nat, u2: nat): (code: nat)
    ensures 0x10000 <= code < 0x110000
  {
    0x10000 + u % 1024 * 1024 + u2 % 1024
  }

  /** u and u2 are the surrogates of a point. */
  predicate Surrogates(u: nat, u2: nat, code: nat) {
    0xD800 <= u < 0xDC00 && 0xDC00 <= u2 < 0xE000 && code == 0x10000 + (u - 0xD800) * 1024 + (u2 - 0xDC00)
  }

  ghost function PieceBytes(p: Piece): string
  {
    match p
    case Plain(c) => [c]
    case Short(c) => [ShortFor(c)]
    case Point(code, _) => PointBytes(code)
    case Pair(u, u2, _, _) => PointBytes(PairRead(PairCode(u, u2)))
  }

  /** The bytes of a \u escape decode to its point. */
  lemma EscapeDecodes(p: Piece)
    requires PieceOk(p) && p.Point?
    ensures ReadPoint(PieceBytes(p)) == Some(p.code)
  {
    PointBytesAre(p.code);
    Utf8Decodes(p.code);
  }

  /** The bytes of a surrogate pair decode to its point exactly if the point's offset has no bit 16. */
  lemma PairDecodes(p: Piece, code: nat)
    requires PieceOk(p) && p.Pair? && Surrogates(p.u, p.u2, code)
    ensures ReadPoint(PieceBytes(p)) == Some(code) <==> code / 0x10000 % 2 == 1
  {
    assert code == PairCode(p.u, p.u2);
    PairInRange(code);
    PointBytesAre(PairRead(code));
    Utf8Decodes(PairRead(code));
  }

  lemma PairInRange(code: nat)
    requires code < 0x110000
    ensures 0x10000 <= code ==> PairRead(code) < 0x100000
    ensures 0x10000 <= code ==> (PairRead(code) == code <==> code / 0x10000 % 2 == 1)
  {
    if 0x10000 <= code {
      assert (code - 0x10000) / 0x10000 == code / 0x10000 - 1;
    }
  }

  predicate AllPieces(ps: seq<Piece>) {
    forall i :: 0 <= i < |ps| ==> PieceOk(ps[i])
  }

  function Written(ps: seq<Piece>): string {
    if ps == [] then "" else PieceText(ps[0]) + Written(ps[1..])
  }

  /** The bytes a written string stands for. */
  ghost function Meant(ps: seq<Piece>): string
  {
    if ps == [] then "" else PieceBytes(ps[0]) + Meant(ps[1..])
  }

  /** A string without escapes means itself. */
  lemma {:induction false} PlainMeans(ps: seq<Piece>)
    requires forall i :: 0 <= i < |ps| ==> ps[i].Plain?
    ensures Meant(ps) == Written(ps)
  {
    if ps != [] {
      PlainMeans(ps[1..]);
    }
  }

  // ----- numbers -----

  datatype Exponent = Exponent(e: char, sign: string, digits: string)

  /** A number as it is written; the parser lets a minus sign do without digits after it. */
  datatype Numeral = Numeral(minus: bool, whole: string, fraction: Option<string>, exponent: Option<Exponent>)

  predicate Digits(s: string) {
    forall i :: 0 <= i < |s| ==> '0' <= s[i] <= '9'
  }

  predicate Figures(s: string) {
    s != "" && Digits(s)
  }

  predicate NumeralOk(n: Numeral) {
    && Digits(n.whole) && (|n.whole| > 1 ==> n.whole[0] != '0')
    && (n.whole == "" ==> n.minus && n.fraction.None?)
    && (n.fraction.Some? ==> Figures(n.fraction.value))
    && ExponentOk(n.exponent)
  }

  predicate ExponentOk(e: Option<Exponent>) {
    e.Some? ==> e.value.e in "eE" && e.value.sign in ["", "+", "-"] && Figures(e.value.digits)
  }

  function FractionText(f: Option<string>): string {
    if f.Some? then "." + f.value else ""
  }

  function ExponentText(e: Option<Exponent>): string {
    if e.Some? then [e.value.e] + e.value.sign + e.value.digits else ""
  }

  function NumeralText(n: Numeral): string {
    (if n.minus then "-" else "") + n.whole + FractionText(n.fraction) + ExponentText(n.exponent)
  }

  /** The number that decimal digits denote. */
  function Decimal(s: string): int
  {
    if s == "" then 0 else 10 * Decimal(s[..|s| - 1]) + (s[|s| - 1] as int - '0' as int)
  }

  predicate Whole(n: Numeral) {
    n.fraction.None? && n.exponent.None?
  }

  function IntegerValue(n: Numeral): int
  {
    if n.minus then -Decimal(n.whole) else Decimal(n.whole)
  }

  // ----- values -----

  /** A value as it is written, with the white space inside it. */
  datatype Doc =
    | Null
    | Bool(truth: bool)
    | Number(n: Numeral)
    | Text(pieces: seq<Piece>)
    | List(items: Items)
    | Object(members: Members)

  /** What stands between the brackets. White space alone may also follow a comma, as the parser has it. */
  datatype Items = NoItems | NoMoreItems(gap: string) | Item(before: string, value: Doc, after: string, rest: Items)

  datatype Members =
    | NoMembers
    | NoMoreMembers(gap: string)
    | Member(before: string, name: seq<Piece>, gap1: string, gap2: string, value: Doc, after: string, rest: Members)

  function Quoted(ps: seq<Piece>): string {
    "\"" + Written(ps) + "\""
  }

  /** What stands between a child and the next, or the end. */
  function Separator(last: bool): string {
    if last then "" else ","
  }

  /** What stands before a member's value. */
  function Heading(before: string, name: seq<Piece>, gap1: string, gap2: string): string {
    before + Quoted(name) + gap1 + ":" + gap2
  }

  function DocText(d: Doc): string {
    match d
    case Null => "null"
    case Bool(truth) => if truth then "true" else "false"
    case Number(n) => NumeralText(n)
    case Text(ps) => Quoted(ps)
    case List(items) => "[" + (ItemsText(items) + "]")
    case Object(members) => "{" + (MembersText(members) + "}")
  }

  function ItemsText(items: Items): string {
    match items
    case NoItems => ""
    case NoMoreItems(gap) => gap
    case Item(before, value, after, rest) =>
      before + DocText(value) + after + Separator(rest.NoItems?) + ItemsText(rest)
  }

  function MembersText(members: Members): string {
    match members
    case NoMembers => ""
    case NoMoreMembers(gap) => gap
    case Member(before, name, gap1, gap2, value, after, rest) =>
      Heading(before, name, gap1, gap2) + DocText(value) + after + Separator(rest.NoMembers?) + MembersText(rest)
  }

  predicate White(s: string) {
    forall i :: 0 <= i < |s| ==> s[i] == ' ' || s[i] == '\t' || s[i] == '\n' || s[i] == '\r'
  }

  /** Well written, and no string or collection longer than the parser's limit. */
  ghost predicate DocOk(d: Doc) {
    match d
    case Null => true
    case Bool(_) => true
    case Number(n) => NumeralOk(n)
    case Text(ps) => StringOk(ps)
    case List(items) => ItemsOk(items) && ItemCount(items) <= UINT_LIMIT
    case Object(members) => MembersOk(members) && MemberCount(members) <= UINT_LIMIT
  }

  ghost predicate StringOk(ps: seq<Piece>) {
    AllPieces(ps) && |Meant(ps)| <= UINT_LIMIT
  }

  ghost predicate ItemsOk(items: Items) {
    match items
    case NoItems => true
    case NoMoreItems(gap) => White(gap)
    case Item(before, value, after, rest) => White(before) && White(after) && DocOk(value) && ItemsOk(rest)
  }

  ghost predicate MembersOk(members: Members) {
    match members
    case NoMembers => true
    case NoMoreMembers(gap) => White(gap)
    case Member(before, name, gap1, gap2, value, after, rest) =>
      && White(before) && White(gap1) && White(gap2) && White(after)
      && StringOk(name) && DocOk(value) && MembersOk(rest)
  }

  function ItemCount(items: Items): nat {
    if items.Item? then 1 + ItemCount(items.rest) else 0
  }

  function MemberCount(members: Members): nat {
    if members.Member? then 1 + MemberCount(members.rest) else 0
  }

  /** How many values there are in a value, itself included. */
  function Size(d: Doc): (n: nat)
    ensures n >= 1
  {
    1 + match d
        case List(items) => ItemsSize(items)
        case Object(members) => MembersSize(members)
        case _ => 0
  }

  function ItemsSize(items: Items): nat {
    if items.Item? then Size(items.value) + ItemsSize(items.rest) else 0
  }

  function MembersSize(members: Members): nat {
    if members.Member? then Size(members.value) + MembersSize(members.rest) else 0
  }

  // ----- what a parsed value holds -----

  function KindOf(d: Doc): Kind {
    match d
    case Null => KNull
    case Bool(truth) => KBoolean(truth)
    case Number(n) => if Whole(n) then KInteger else KDouble
    case Text(_) => KString
    case List(_) => KArray
    case Object(_) => KObject
  }

  /**
   Value `at` of the parsed ones is the written one: its kind, an integer's value, a string's
   bytes, a collection's children in order, and their names.
   */
  ghost predicate Holds(nodes: seq<Node>, at: nat, d: Doc)
    decreases d
  {
    && at < |nodes| && nodes[at].kind == KindOf(d)
    && match d
       case Number(n) => Whole(n) ==> nodes[at].number == IntegerValue(n)
       case Text(ps) => nodes[at].chars == Meant(ps)
       case List(items) =>
         |nodes[at].kids| == ItemCount(items) && HoldsItems(nodes, nodes[at].kids, 0, at + 1, items)
       case Object(members) =>
         && |nodes[at].kids| == |nodes[at].names| == MemberCount(members)
         && HoldsMembers(nodes, nodes[at].kids, nodes[at].names, 0, at + 1, members)
       case _ => true
  }

  /** The children from the k-th on are the items, allocated one after the other from `at` on. */
  ghost predicate HoldsItems(nodes: seq<Node>, kids: seq<int>, k: nat, at: nat, items: Items)
    decreases items
  {
    items.Item? ==>
      && k < |kids| && kids[k] == at && Holds(nodes, at, items.value)
      && HoldsItems(nodes, kids, k + 1, at + Size(items.value), items.rest)
  }

  ghost predicate HoldsMembers(nodes: seq<Node>, kids: seq<int>, names: seq<string>, k: nat, at: nat, members: Members)
    decreases members
  {
    members.Member? ==>
      && k < |kids| == |names| && kids[k] == at && names[k] == Meant(members.name) && Holds(nodes, at, members.value)
      && HoldsMembers(nodes, kids, names, k + 1, at + Size(members.value), members.rest)
  }
}

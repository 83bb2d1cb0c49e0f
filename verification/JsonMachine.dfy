/**
 The character machine of `json_parse_ex` (json.cpp), which runs twice over one text: the
 first pass only counts, the second allocates from the counts and fills. Both passes are one
 function here, as they are one loop there, split into what the character makes the loop do
 (`Decide`, the same in both passes) and what doing it changes (`Apply`). Values live in an
 arena in allocation order, so a pointer is an index and `next_alloc` is "the next index".
 */
module JsonMachine {

  datatype Kind = KObject | KArray | KInteger | KDouble | KString | KBoolean(truth: bool) | KNull

  /**
   A value. `number` is an integer's, `length` counts children or string bytes, `keyBytes` the packed key bytes with
   their terminators. In the second pass both start again from zero, under the capacities
   `cap` and `keyCap` allocated from the first pass's counts.
   */
  datatype Node = Node(kind: Kind, parent: int, number: int, length: nat, keyBytes: nat,
                       cap: nat, keyCap: nat, kids: seq<int>, names: seq<string>, chars: string)

  /** The flag word and the text cursor. */
  datatype Control = Control(i: int, seek: bool, needComma: bool, needColon: bool, done: bool,
                             inString: bool, escaped: bool)

  /** The flags and counter of the number automaton; the values of doubles are not modelled. */
  datatype Num = Num(negative: bool, zero: bool, e: bool, gotSign: bool, digits: nat)

  datatype State = State(c: Control, num: Num, top: int, alloc: nat, strLen: nat, buf: string, nodes: seq<Node>)

  datatype Top = NoTop | Top(kind: Kind)

  /** What one turn of the loop does; the control in it is the one the next turn starts from. */
  datatype Action =
    | Reject                                            // goto e_failed, e_overflow, ...
    | Accept                                            // break out of the loop
    | NullTop                                           // dereference of a null `top`
    | Idle(c: Control)                                  // only flags and cursor move
    | Key(c: Control)                                   // an object key starts
    | Put(c: Control, size: nat, bytes: string)         // string_add
    | Quote(c: Control)                                 // the closing quote
    | Open(c: Control, kind: Kind)                      // new_value of an object, array or string
    | Leaf(c: Control, kind: Kind)                      // new_value of a literal, complete at once
    | Number(c: Control, minus: bool)                   // new_value of a number
    | Digit(c: Control, num: Num, double: bool, digit: int) // the number automaton goes on; -1: no integer's digit
    | Close(c: Control)                                 // flag_next: the value at `top` is complete

  datatype Outcome = More(st: State) | Done(st: State) | Rejected | Crashed

  const UINT_LIMIT := 0xFFFF_FFFF - 8

  const START :=
    State(Control(0, true, false, false, false, false, false), Num(false, false, false, false, 0), -1, 0, 0, "", [])

  /** The text is terminated by NUL, as every caller's is. */
  function At(text: string, i: int): char {
    if 0 <= i < |text| then text[i] else '\0'
  }

  predicate IsSpace(b: char) {
    b == '\n' || b == ' ' || b == '\t' || b == '\r'
  }

  predicate IsDigit(b: char) {
    '0' <= b <= '9'
  }

  /** The characters the second pass's number skip runs over. */
  predicate InNumber(b: char) {
    IsDigit(b) || b == '+' || b == '-' || b == 'e' || b == 'E' || b == '.'
  }

  function SkipNumber(text: string, i: int): (k: int)
    requires 0 <= i <= |text|
    ensures i <= k <= |text|
    ensures !InNumber(At(text, k))
    ensures forall j :: i <= j < k ==> InNumber(At(text, j))
    decreases |text| - i
  {
    if i < |text| && InNumber(text[i]) then SkipNumber(text, i + 1) else i
  }

  // ----- escapes -----

  /** `hex_value`, with -1 for 0xFF. */
  function HexValue(c: char): int {
    if IsDigit(c) then c as int - '0' as int
    else if 'a' <= c <= 'f' then c as int - 'a' as int + 10
    else if 'A' <= c <= 'F' then c as int - 'A' as int + 10
    else -1
  }

  /** Four hex digits from position i on, or -1. */
  function Hex4(text: string, i: int): (u: int)
    ensures -1 <= u <= 0xFFFF
    ensures 0 <= u && 0 <= i ==> i + 3 < |text|
  {
    var h1, h2, h3, h4 := HexValue(At(text, i)), HexValue(At(text, i + 1)),
                              HexValue(At(text, i + 2)), HexValue(At(text, i + 3));
    if h1 < 0 || h2 < 0 || h3 < 0 || h4 < 0 then -1 else ((h1 * 16 + h2) * 16 + h3) * 16 + h4
  }

  /** 0x010000 | ((u & 0x3FF) << 10) | (u2 & 0x3FF), the `|` written out. */
  function SurrogatePair(u: nat, u2: nat): (c: nat)
    ensures 0xFFFF < c < 0x100000
  {
    var hi, lo := u % 0x400, u2 % 0x400;
    (if hi / 64 % 2 == 1 then hi * 0x400 else hi * 0x400 + 0x10000) + lo
  }

  function Utf8(u: nat): (bytes: seq<char>)
    requires u < 0x100000
    ensures |bytes| == Utf8Size(u)
  {
    if u <= 0x7F then [u as char]
    else if u <= 0x7FF then [(0xC0 + u / 64) as char, (0x80 + u % 64) as char]
    else if u <= 0xFFFF then
      [(0xE0 + u / 4096) as char, (0x80 + u / 64 % 64) as char, (0x80 + u % 64) as char]
    else
      [(0xF0 + u / 262144) as char, (0x80 + u / 4096 % 64) as char,
       (0x80 + u / 64 % 64) as char, (0x80 + u % 64) as char]
  }

  /** How much the first pass adds for the same code point. */
  function Utf8Size(u: nat): nat {
    if u <= 0x7F then 1 else if u <= 0x7FF then 2 else if u <= 0xFFFF then 3 else 4
  }

  /** A \u escape whose `u` is at i: its code point and the place of its last digit. */
  datatype CodePoint = Invalid | CodePoint(code: nat, last: int)

  function Unicode(text: string, i: int): (r: CodePoint)
    ensures r.CodePoint? ==> r.code < 0x100000 && i < r.last
    ensures r.CodePoint? && 0 <= i ==> r.last < |text|
  {
    var u := Hex4(text, i + 1);
    if |text| - i < 4 || u < 0 then Invalid
    else if u < 0xD800 || 0xDFFF < u then CodePoint(u, i + 4)
    else
      var u2 := Hex4(text, i + 7);
      if |text| - (i + 4) < 6 || At(text, i + 5) != '\\' || At(text, i + 6) != 'u' || u2 < 0 then Invalid
      else CodePoint(SurrogatePair(u, u2), i + 10)
  }

  function Unescape(b: char): char {
    if b == 'b' then 8 as char
    else if b == 'f' then 12 as char
    else if b == 'n' then '\n'
    else if b == 'r' then '\r'
    else if b == 't' then '\t'
    else b
  }

  // ----- what a character makes the loop do -----

  function StringChar(text: string, c: Control, b: char): Action {
    if b == '\0' then Reject
    else if c.escaped then
      if b != 'u' then Put(c.(i := c.i + 1, escaped := false), 1, [Unescape(b)])
      else
        match Unicode(text, c.i)
        case Invalid => Reject
        case CodePoint(u, last) => Put(c.(i := last + 1, escaped := false), Utf8Size(u), Utf8(u))
    else if b == '\\' then Idle(c.(i := c.i + 1, escaped := true))
    else if b == '"' then Quote(c.(i := c.i + 1, inString := false))
    else Put(c.(i := c.i + 1), 1, [b])
  }

  /** Whether the letters of a literal follow its first one at i; `least` is the length the code checks. */
  predicate Follows(text: string, i: int, rest: string, least: nat) {
    |text| - i >= least && forall k :: 0 <= k < |rest| ==> At(text, i + 1 + k) == rest[k]
  }

  function Value(text: string, c: Control, b: char): Action {
    if b == '{' then Open(c.(i := c.i + 1, seek := false), KObject)
    else if b == '[' then Open(c.(i := c.i + 1), KArray)
    else if b == '"' then Open(c.(i := c.i + 1, seek := false, inString := true), KString)
    else if b == 't' then
      if Follows(text, c.i, "rue", 3) then Leaf(c.(i := c.i + 4, seek := false), KBoolean(true)) else Reject
    else if b == 'f' then
      if Follows(text, c.i, "alse", 4) then Leaf(c.(i := c.i + 5, seek := false), KBoolean(false)) else Reject
    else if b == 'n' then
      if Follows(text, c.i, "ull", 3) then Leaf(c.(i := c.i + 4, seek := false), KNull) else Reject
    else if IsDigit(b) || b == '-' then Number(c.(seek := false), b == '-')
    else Reject
  }

  function Seek(text: string, c: Control, t: Top, b: char): Action {
    if IsSpace(b) then Idle(c.(i := c.i + 1))
    else if b == ']' then
      if t == Top(KArray) then Close(c.(i := c.i + 1, needComma := false, seek := false)) else Reject
    else if c.needComma then
      if b == ',' then Idle(c.(i := c.i + 1, needComma := false)) else Reject
    else if c.needColon then
      if b == ':' then Idle(c.(i := c.i + 1, needColon := false)) else Reject
    else Value(text, c, b)
  }

  function InObject(c: Control, b: char): Action {
    if IsSpace(b) then Idle(c.(i := c.i + 1))
    else if b == '"' then
      if c.needComma then Reject else Key(c.(i := c.i + 1, inString := true))
    else if b == '}' then Close(c.(i := c.i + 1, needComma := false))
    else if b == ',' && c.needComma then Idle(c.(i := c.i + 1, needComma := false))
    else Reject
  }

  /** The first pass's number automaton. */
  function NumberChar(c: Control, n: Num, integer: bool, b: char): Action {
    var on := c.(i := c.i + 1);
    if IsDigit(b) then
      if n.e then Digit(on, n.(digits := n.digits + 1, gotSign := true), false, -1)
      else if integer && n.zero then Reject
      else
        Digit(on, n.(digits := n.digits + 1, zero := if integer then n.digits == 0 && b == '0' else n.zero), false,
              if integer then b as int - '0' as int else -1)
    else if (b == '+' || b == '-') && n.e && !n.gotSign then Digit(on, n.(gotSign := true), false, -1)
    else if b == '.' && integer then
      if n.digits == 0 then Reject else Digit(on, n.(digits := 0), true, -1)
    else if (n.e || !integer) && n.digits == 0 then Reject
    else if !n.e && (b == 'e' || b == 'E') then Digit(on, n.(e := true, digits := 0, zero := false), true, -1)
    else Close(c)
  }

  function Decide(text: string, c: Control, n: Num, t: Top, tooLong: bool): Action {
    var b := At(text, c.i);
    if c.inString then if tooLong then Reject else StringChar(text, c, b)
    else if c.done then
      if b == '\0' then Accept else if IsSpace(b) then Idle(c.(i := c.i + 1)) else Reject
    else if c.seek then Seek(text, c, t, b)
    else if t.NoTop? then NullTop
    else if t.kind == KObject then InObject(c, b)
    else if t.kind == KInteger || t.kind == KDouble then NumberChar(c, n, t.kind == KInteger, b)
    else Idle(c.(i := c.i + 1))
  }

  // ----- what doing it changes -----

  predicate TopOk(st: State) {
    0 <= st.top < |st.nodes|
  }

  function TopOf(st: State): Top {
    if TopOk(st) then Top(st.nodes[st.top].kind) else NoTop
  }

  /** Whether n more bytes fit where the second pass is writing. */
  predicate Room(st: State, n: nat) {
    TopOk(st) &&
    var v := st.nodes[st.top];
    if v.kind == KString then st.strLen + n <= v.cap + 1
    else v.kind == KObject && v.keyBytes + st.strLen + n <= v.keyCap
  }

  /** `string_add`: counted in the first pass, written in the second. */
  function PutBytes(first: bool, st: State, size: nat, bytes: string): Outcome {
    if first then More(st.(strLen := st.strLen + size))
    else if Room(st, |bytes|) then More(st.(strLen := st.strLen + |bytes|, buf := st.buf + bytes))
    else Crashed
  }

  function Least(a: nat, b: nat): nat {
    if a <= b then a else b
  }

  /** The node of a string whose closing quote has been read. */
  function WithString(st: State, v: Node): Node {
    v.(length := st.strLen, chars := st.buf)
  }

  /** The node of an object one of whose keys has been read: the bytes are packed, the name noted. */
  function WithKey(first: bool, st: State, v: Node): Node {
    v.(keyBytes := v.keyBytes + st.strLen + 1,
       names := if first then v.names else v.names[..Least(v.length, |v.names|)] + [st.buf])
  }

  function EndString(first: bool, st: State): Outcome {
    if !TopOk(st) || (!first && !Room(st, 1)) then Crashed
    else
      var v := st.nodes[st.top];
      if v.kind == KString then Complete(first, st.(nodes := st.nodes[st.top := WithString(st, v)]))
      else if v.kind != KObject || (!first && v.length >= v.cap) then Crashed
      else More(st.(nodes := st.nodes[st.top := WithKey(first, st, v)],
                    c := st.c.(seek := true, needColon := true)))
  }

  /** A value as the second pass takes it up: capacities from the counts, counts from zero, no contents yet. */
  function Emptied(v: Node): Node {
    var w := v.(kids := [], names := [], chars := "");
    if v.kind == KArray || v.kind == KString then w.(cap := v.length, length := 0)
    else if v.kind == KObject then w.(cap := v.length, length := 0, keyCap := v.keyBytes, keyBytes := 0)
    else w
  }

  function Fresh(kind: Kind, parent: int): Node {
    Node(kind, parent, 0, 0, 0, 0, 0, [], [], "")
  }

  /** `new_value`: append in the first pass, take the next recorded one in the second. */
  function NewValue(first: bool, st: State, kind: Kind): Outcome {
    if first then
      More(st.(nodes := st.nodes + [Fresh(kind, st.top)], top := |st.nodes|, alloc := st.alloc + 1))
    else if st.alloc >= |st.nodes| then Crashed
    else
      More(st.(nodes := st.nodes[st.alloc := Emptied(st.nodes[st.alloc])], top := st.alloc, alloc := st.alloc + 1))
  }

  /** The parent of a completed value: one more child, and in the second pass the link to it. */
  function WithChild(first: bool, v: Node, child: int): Node {
    v.(length := v.length + 1, kids := if first then v.kids else v.kids + [child])
  }

  /** flag_next: the value at `top` is complete; its parent counts it and becomes `top`. */
  function Complete(first: bool, st: State): Outcome {
    if !TopOk(st) then Crashed
    else
      var p := st.nodes[st.top].parent;
      if p == -1 then More(st.(c := st.c.(needComma := true, done := true)))
      else if !(0 <= p < |st.nodes|) || (!first && st.nodes[p].length >= st.nodes[p].cap) then Crashed
      else if st.nodes[p].length + 1 > UINT_LIMIT then Rejected
      else
        var v := st.nodes[p];
        More(st.(c := st.c.(needComma := true, seek := st.c.seek || v.kind == KArray),
                 top := p, nodes := st.nodes[p := WithChild(first, v, st.top)]))
  }

  /** A number one character on: the sign, which the code applies at the end, goes with every digit. */
  function Counted(v: Node, num: Num, double: bool, digit: int): Node {
    if double then v.(kind := KDouble)
    else v.(number := 10 * v.number + if num.negative then -digit else digit)
  }

  function StartNumber(text: string, first: bool, st: State, minus: bool): Outcome {
    if first then
      More(st.(num := Num(minus, false, false, false, 0), c := st.c.(i := if minus then st.c.i + 1 else st.c.i)))
    else if 0 <= st.c.i <= |text| then Complete(false, st.(c := st.c.(i := SkipNumber(text, st.c.i))))
    else Crashed
  }

  function Then(o: Outcome, f: State -> Outcome): Outcome {
    if o.More? then f(o.st) else o
  }

  function Apply(text: string, first: bool, st: State, a: Action): Outcome {
    match a
    case Reject => Rejected
    case Accept => Done(st)
    case NullTop => Crashed
    case Idle(c) => More(st.(c := c))
    case Key(c) => More(st.(c := c, strLen := 0, buf := ""))
    case Put(c, size, bytes) => PutBytes(first, st.(c := c), size, bytes)
    case Quote(c) => EndString(first, st.(c := c))
    case Open(c, kind) => NewValue(first, st.(c := c, strLen := 0, buf := ""), kind)
    case Leaf(c, kind) => Then(NewValue(first, st.(c := c), kind), s => Complete(first, s))
    case Number(c, minus) => Then(NewValue(first, st.(c := c), KInteger), s => StartNumber(text, first, s, minus))
    case Digit(c, num, double, digit) =>
      if !TopOk(st) then Crashed
      else if !double && digit < 0 then More(st.(c := c, num := num))
      else More(st.(c := c, num := num, nodes := st.nodes[st.top := Counted(st.nodes[st.top], num, double, digit)]))
    case Close(c) => Complete(first, st.(c := c))
  }

  function Next(text: string, st: State): Action {
    Decide(text, st.c, st.num, TopOf(st), st.strLen > UINT_LIMIT)
  }

  /** One turn of the loop. */
  function Step(text: string, first: bool, st: State): Outcome {
    Apply(text, first, st, Next(text, st))
  }

  function Turn(text: string, first: bool): State -> Outcome {
    (st: State) => Step(text, first, st)
  }

  /** n turns of a loop, or fewer if it ends. */
  function Iterate(f: State -> Outcome, st: State, n: nat): Outcome
    decreases n
  {
    if n == 0 then More(st)
    else
      var o := f(st);
      if o.More? then Iterate(f, o.st, n - 1) else o
  }

  /** n turns of a pass. */
  function Run(text: string, first: bool, st: State, n: nat): Outcome {
    Iterate(Turn(text, first), st, n)
  }

  lemma RunStep(text: string, first: bool, st: State, n: nat, o: Outcome)
    requires n > 0 && o == Step(text, first, st)
    ensures Run(text, first, st, n) == if o.More? then Run(text, first, o.st, n - 1) else o
  {
  }

  /** The second pass starts over the recorded arena: `alloc = root`. */
  function Restart(nodes: seq<Node>): State {
    START.(nodes := nodes)
  }
}

/**
 The language of the parser: a text is accepted exactly if it writes a value. What a text that
 is accepted writes is read off it piece by piece, following the first pass over it.
 */
module JsonLanguage {
  import opened Options
  import opened JsonMachine
  import opened JsonText
  import opened JsonRuns
  import opened JsonNumbers
  import opened JsonValues
  import opened JsonTrees
  import opened JsonWords

  /** At the root, or inside a list or an object. */
  predicate Inside(nodes: seq<Node>, p: int) {
    p == -1 || (0 <= p < |nodes| && (nodes[p].kind == KArray || nodes[p].kind == KObject))
  }

  /** A value is to begin here, and the pass gets past it. */
  ghost predicate BeforeValue(text: string, st: State) {
    Going(text, st) && Facing(text, true, st) && Inside(st.nodes, st.top) && !IsSpace(At(text, st.c.i))
  }

  // ----- numbers -----

  /** What closes a number is no character of one: nothing that may follow a value is. */
  lemma NumberCloses(text: string, z: State)
    requires Going(text, z) && Counting(z) && Next(text, z) == Close(z.c) && Inside(z.nodes, z.nodes[z.top].parent)
    ensures !InNumber(At(text, z.c.i))
  {
    TurnGoes(text, z);
    var v := Step(text, true, z).st;
    TurnGoes(text, v);
  }

  lemma NumberAt(text: string, st: State) returns (n: Numeral)
    requires BeforeValue(text, st) && (IsDigit(At(text, st.c.i)) || At(text, st.c.i) == '-')
    ensures NumeralOk(n) && AtText(text, st.c.i, NumeralText(n)) && !InNumber(At(text, st.c.i + |NumeralText(n)|))
  {
    var w, s := WholeOfNumber(text, st);
    n := NumberFrom(text, st.c.i, w, s);
  }

  lemma NumberFrom(text: string, i: nat, w: string, s: State) returns (n: Numeral)
    requires i <= |text| && Digits(w) && (|w| > 1 ==> w[0] != '0') && (w == "" ==> At(text, i) == '-')
    requires s.c.i - |w| == (if At(text, i) == '-' then i + 1 else i) && AtText(text, s.c.i - |w|, w)
    requires AtRest(text, s) && s.num.digits == |w|
    ensures NumeralOk(n) && AtText(text, i, NumeralText(n)) && !InNumber(At(text, i + |NumeralText(n)|))
  {
    var f, e := RestOfNumber(text, s);
    n := Numeral(At(text, i) == '-', w, f, e);
    NumberText(text, i, s.c.i - |w|, s.c.i, n);
  }

  /** Past the whole part of a number. */
  ghost predicate AtRest(text: string, s: State) {
    && Going(text, s) && Counting(s) && s.nodes[s.top].kind == KInteger && !s.num.e && !s.num.gotSign
    && !IsDigit(At(text, s.c.i)) && Inside(s.nodes, s.nodes[s.top].parent) && s.nodes[s.top].parent < s.top
  }

  /** The sign and the whole part. */
  lemma WholeOfNumber(text: string, st: State) returns (w: string, s: State)
    requires BeforeValue(text, st) && (IsDigit(At(text, st.c.i)) || At(text, st.c.i) == '-')
    ensures Digits(w) && (|w| > 1 ==> w[0] != '0') && (w == "" ==> At(text, st.c.i) == '-')
    ensures var j := if At(text, st.c.i) == '-' then st.c.i + 1 else st.c.i;
            s.c.i - |w| == j && AtText(text, s.c.i - |w|, w) && s.num.digits == |w|
    ensures AtRest(text, s)
  {
    var a := EnterNumber(text, st);
    w, s := WholeAt(text, a);
  }

  /** What is left of a number after its whole part. */
  lemma RestOfNumber(text: string, s: State) returns (f: Option<string>, e: Option<Exponent>)
    requires AtRest(text, s)
    ensures (f.Some? ==> Figures(f.value) && s.num.digits > 0) && AtText(text, s.c.i, FractionText(f))
    ensures ExponentOk(e) && AtText(text, s.c.i + |FractionText(f)|, ExponentText(e))
    ensures !InNumber(At(text, s.c.i + |FractionText(f)| + |ExponentText(e)|))
  {
    var t, z;
    f, t := FractionAt(text, s);
    e, z := ExponentAt(text, t);
    PastInside(s, t);
    PastInside(t, z);
    NumberCloses(text, z);
  }

  lemma PastInside(s: State, t: State)
    requires Past(s, t) && Inside(s.nodes, s.nodes[s.top].parent) && s.nodes[s.top].parent < s.top
    ensures Inside(t.nodes, t.nodes[t.top].parent) && t.nodes[t.top].parent < t.top
  {
  }

  lemma NumberText(text: string, i: nat, j: int, k: int, n: Numeral)
    requires i <= |text| && (n.minus ==> At(text, i) == '-') && j == (if n.minus then i + 1 else i) &&
             k == j + |n.whole|
    requires AtText(text, j, n.whole) && AtText(text, k, FractionText(n.fraction))
    requires AtText(text, k + |FractionText(n.fraction)|, ExponentText(n.exponent))
    ensures AtText(text, i, NumeralText(n))
    ensures i + |NumeralText(n)| == k + |FractionText(n.fraction)| + |ExponentText(n.exponent)|
  {
    var sign := if n.minus then "-" else "";
    if n.minus {
      AtChar(text, i, '-');
    }
    AtJoin(text, i, sign, n.whole);
    AtJoin(text, i, sign + n.whole, FractionText(n.fraction));
    AtJoin(text, i, sign + n.whole + FractionText(n.fraction), ExponentText(n.exponent));
  }

  // ----- literals and strings -----

  lemma LiteralAt(text: string, i: nat, t: string, least: nat)
    requires |t| > 1 && At(text, i) == t[0] && Follows(text, i, t[1..], least) && '\0' !in t
    ensures AtText(text, i, t)
  {
    forall k | 0 <= k < |t|
      ensures Stands(text, i, t, k) && i + k < |text|
    {
      assert k > 0 ==> At(text, i + 1 + (k - 1)) == t[1..][k - 1];
    }
    assert Stands(text, i, t, |t| - 1);
  }

  lemma TextAt(text: string, st: State) returns (ps: seq<Piece>)
    requires BeforeValue(text, st) && At(text, st.c.i) == '"'
    ensures StringOk(ps) && AtText(text, st.c.i, Quoted(ps))
  {
    AtChar(text, st.c.i, '"');
    var b := OpenText(text, true, st);
    EndsOn(text, true, st, More(b));
    var s;
    ps, s := StringAt(text, st.c.i, b);
  }

  /** A string whose opening quote is at i. */
  lemma StringAt(text: string, i: nat, b: State) returns (ps: seq<Piece>, s: State)
    requires Going(text, b) && b.c.inString && !b.c.escaped && b.strLen == 0
    requires AtText(text, i, "\"") && b.c.i == i + 1
    ensures StringOk(ps) && AtText(text, i, Quoted(ps))
    ensures s == Said(true, b, |Written(ps)|, Meant(ps)) && Leads(text, true, b, More(s)) && Going(text, s) &&
            Reading(s)
    ensures At(text, s.c.i) == '"'
  {
    ps, s := ReadPieces(text, b);
    QuotedAt(text, i, b.c.i, s.c.i, ps);
  }

  lemma QuotedAt(text: string, i: nat, j: nat, k: nat, ps: seq<Piece>)
    requires AtText(text, i, "\"") && AtText(text, j, Written(ps)) && j == i + 1
    requires At(text, k) == '"' && k == j + |Written(ps)| && k <= |text|
    ensures AtText(text, i, Quoted(ps))
  {
    var open := "\"" + Written(ps);
    AtJoin(text, i, "\"", Written(ps));
    AtChar(text, k, '"');
    AtJoin(text, i, open, "\"");
  }

  /** Which characters may begin a value, and the literals in full. */
  lemma ValueBegins(text: string, st: State)
    requires BeforeValue(text, st) && At(text, st.c.i) != ']'
    ensures var b := At(text, st.c.i);
            && (b in "{[\"tfn-" || IsDigit(b))
            && (b == 't' ==> AtText(text, st.c.i, "true"))
            && (b == 'f' ==> AtText(text, st.c.i, "false"))
            && (b == 'n' ==> AtText(text, st.c.i, "null"))
  {
    TurnGoes(text, st);
    var i, b := st.c.i, At(text, st.c.i);
    assert Next(text, st) == Value(text, st.c, b);
    if b == 't' {
      LiteralAt(text, i, "true", 3);
    } else if b == 'f' {
      LiteralAt(text, i, "false", 4);
    } else if b == 'n' {
      LiteralAt(text, i, "null", 3);
    }
  }

  // ----- children -----

  /** The value at st has been read, and with it the pass comes to its parent again. */
  lemma PassChild(text: string, st: State, u: State, p: nat, d: Doc) returns (v: State)
    requires Going(text, st) && Leads(text, true, st, Complete(true, u)) && Took(true, st, u, d)
    requires p < st.alloc == |st.nodes| && st.top == p && Inside(st.nodes, p) && !st.c.inString && !st.c.done
    requires AtText(text, st.c.i, DocText(d))
    ensures Leads(text, true, st, More(v)) && Going(text, v)
    ensures v.c == st.c.(i := st.c.i + |DocText(d)|, needComma := true, seek := st.nodes[p].kind == KArray)
    ensures v.top == p && v.alloc == st.alloc + Size(d) == |v.nodes|
    ensures Joined(true, st.nodes, v.nodes, st.alloc, p, st.nodes[p], d) && st.nodes[p].length + 1 <= UINT_LIMIT
  {
    EndsOn(text, true, st, Complete(true, u));
    v := JoinValue(text, true, st, u, p, d);
    EndsOn(text, true, st, More(v));
  }

  /** Where the pass stands after a child: at a comma, or at the closing bracket. */
  lemma AfterChildAt(text: string, v: State, close: char) returns (after: string, last: bool, y: State)
    requires Going(text, v) && !v.c.inString && !v.c.done && v.c.needComma
    requires if v.c.seek then TopOf(v) == Top(KArray) && close == ']' else TopOf(v) == Top(KObject) && close == '}'
    ensures White(after) && AtText(text, v.c.i, after) && AtText(text, v.c.i + |after|, Separator(last))
    ensures y == v.(c := v.c.(i := v.c.i + |after| + |Separator(last)|, needComma := last))
    ensures Going(text, y) && (last ==> AtText(text, y.c.i, [close]))
  {
    var x;
    after, x := ReadSpaces(text, v);
    TurnGoes(text, x);
    last := At(text, x.c.i) == close;
    if last {
      y := x;
      AtChar(text, x.c.i, close);
    } else {
      y := x.(c := x.c.(i := x.c.i + 1, needComma := false));
      AtChar(text, x.c.i, ',');
    }
  }

  /** A child's text and what stands around it, from i to j. */
  predicate ChildStands(text: string, i: int, before: string, value: string, after: string, last: bool, j: int) {
    && AtText(text, i, before) && AtText(text, i + |before|, value) && AtText(text, i + |before| + |value|, after)
    && AtText(text, i + |before| + |value| + |after|, Separator(last))
    && j == i + |before| + |value| + |after| + |Separator(last)|
  }

  lemma ChildAt(text: string, i: int, k: int, before: string, value: string, after: string, last: bool)
    requires AtText(text, i, before) && AtText(text, i + |before|, value) && k == i + |before| + |value|
    requires AtText(text, k, after) && AtText(text, k + |after|, Separator(last))
    ensures ChildStands(text, i, before, value, after, last, k + |after| + |Separator(last)|)
  {
  }

  lemma JoinParts(text: string, i: int, before: string, value: string, after: string, last: bool, rest: string)
    requires AtText(text, i, before) && AtText(text, i + |before|, value) && AtText(text, i + |before| + |value|, after)
    requires AtText(text, i + |before| + |value| + |after|, Separator(last))
    requires AtText(text, i + |before| + |value| + |after| + |Separator(last)|, rest)
    ensures AtText(text, i, before + value + after + Separator(last) + rest)
  {
    AtJoin(text, i, before, value);
    AtJoin(text, i, before + value, after);
    AtJoin(text, i, before + value + after, Separator(last));
    AtJoin(text, i, before + value + after + Separator(last), rest);
  }

  // ----- lists -----

  /** Items may stand here, and the pass gets past them. */
  ghost predicate BeforeItems(text: string, st: State, p: nat) {
    && Going(text, st) && Expecting(st) && st.top == p < st.alloc == |st.nodes|
    && st.nodes[p].kind == KArray && st.nodes[p].length <= UINT_LIMIT
  }

  lemma NoItemAt(text: string, st: State, p: nat, w: string)
    requires BeforeItems(text, st, p) && White(w) && AtText(text, st.c.i, w) && At(text, st.c.i + |w|) == ']'
    ensures AtItems(text, true, st, p, NoMoreItems(w))
  {
    AtChar(text, st.c.i + |w|, ']');
    AtJoin(text, st.c.i, w, "]");
  }

  lemma ItemAt(text: string, st: State, p: nat, w: string, d: Doc, after: string, rest: Items, j: int)
    requires BeforeItems(text, st, p) && st.nodes[p].length + 1 + ItemCount(rest) <= UINT_LIMIT
    requires White(w) && White(after) && DocOk(d) && ItemsOk(rest)
    requires ChildStands(text, st.c.i, w, DocText(d), after, rest.NoItems?, j) && AtText(text, j, ItemsText(rest) + "]")
    ensures AtItems(text, true, st, p, Item(w, d, after, rest))
  {
    var end := ItemsText(rest) + "]";
    JoinParts(text, st.c.i, w, DocText(d), after, rest.NoItems?, end);
    assert ItemsText(Item(w, d, after, rest)) + "]" == w + DocText(d) + after + Separator(rest.NoItems?) + end;
  }

  /** Past an item: its text, and what the pass comes to then. */
  lemma PassItemAt(text: string, st: State, w: string, s: State, u: State, p: nat, d: Doc)
    returns (after: string, last: bool, y: State)
    requires BeforeItems(text, st, p) && AtText(text, st.c.i, w) && s == Moved(st, |w|) && Going(text, s)
    requires Ahead(text, true, s, d) && Leads(text, true, s, Complete(true, u)) && Took(true, s, u, d)
    ensures White(after) && ChildStands(text, st.c.i, w, DocText(d), after, last, y.c.i) && Going(text, y)
    ensures last ==> AtText(text, y.c.i, "]")
    ensures st.nodes[p].length + 1 <= UINT_LIMIT && y.c == st.c.(i := y.c.i, needComma := last)
    ensures y.top == p < y.alloc == |y.nodes|
    ensures y.nodes[p].kind == KArray && y.nodes[p].length == st.nodes[p].length + 1
  {
    var v := PassChild(text, s, u, p, d);
    after, last, y := AfterChildAt(text, v, ']');
    AtSame(text, s.c.i, st.c.i + |w|, DocText(d));
    ChildAt(text, st.c.i, v.c.i, w, DocText(d), after, last);
  }

  lemma {:induction false} ReadItems(text: string, st: State, p: nat) returns (items: Items)
    requires BeforeItems(text, st, p)
    ensures AtItems(text, true, st, p, items) && !items.NoItems?
    decreases |text| - st.c.i, 2
  {
    var w, s := ReadSpaces(text, st);
    if At(text, s.c.i) == ']' {
      items := NoMoreItems(w);
      NoItemAt(text, st, p, w);
    } else {
      var d := ReadValue(text, s);
      var u := RunValue(text, true, s, d);
      var after, last, y := PassItemAt(text, st, w, s, u, p, d);
      var rest := NoItems;
      if last {
        assert ItemsText(rest) + "]" == "]";
      } else {
        rest := ReadItems(text, y, p);
      }
      items := Item(w, d, after, rest);
      ItemAt(text, st, p, w, d, after, rest, y.c.i);
    }
  }

  lemma {:induction false} ReadList(text: string, st: State) returns (d: Doc)
    requires BeforeValue(text, st) && At(text, st.c.i) == '['
    ensures Ahead(text, true, st, d)
    decreases |text| - st.c.i, 0
  {
    AtChar(text, st.c.i, '[');
    var f := OpenCollection(text, true, st, KArray);
    EndsOn(text, true, st, More(f));
    var items := ReadItems(text, f, f.top);
    d := List(items);
    AtJoin(text, st.c.i, "[", ItemsText(items) + "]");
  }

  // ----- objects -----

  /** Members may stand here, and the pass gets past them. */
  ghost predicate BeforeMembers(text: string, st: State, p: nat) {
    && Going(text, st) && !st.c.seek && Expecting(st.(c := st.c.(seek := true))) && st.top == p < st.alloc == |st.nodes|
    && st.nodes[p].kind == KObject && st.nodes[p].length <= UINT_LIMIT
  }

  lemma NoMemberAt(text: string, st: State, p: nat, w: string)
    requires BeforeMembers(text, st, p) && White(w) && AtText(text, st.c.i, w) && At(text, st.c.i + |w|) == '}'
    ensures AtMembers(text, true, st, p, NoMoreMembers(w))
  {
    AtChar(text, st.c.i + |w|, '}');
    AtJoin(text, st.c.i, w, "}");
  }

  lemma MemberAt(text: string, st: State, p: nat, members: Members, j: int)
    requires BeforeMembers(text, st, p) && members.Member?
    requires st.nodes[p].length + 1 + MemberCount(members.rest) <= UINT_LIMIT && MembersOk(members)
    requires ChildStands(text, st.c.i, HeadingOf(members), DocText(members.value), members.after,
                         members.rest.NoMembers?, j)
    requires AtText(text, j, MembersText(members.rest) + "}")
    ensures AtMembers(text, true, st, p, members)
  {
    var last, end := members.rest.NoMembers?, MembersText(members.rest) + "}";
    JoinParts(text, st.c.i, HeadingOf(members), DocText(members.value), members.after, last, end);
    assert MembersText(members) + "}" ==
           HeadingOf(members) + DocText(members.value) + members.after + Separator(last) + end;
  }

  /** A name, from its opening quote to the colon that has to follow. */
  lemma NameAt(text: string, s: State, p: nat) returns (name: seq<Piece>, k: State)
    requires BeforeMembers(text, s, p) && At(text, s.c.i) == '"'
    ensures StringOk(name) && AtText(text, s.c.i, Quoted(name)) && Going(text, k)
    ensures k.c == s.c.(i := s.c.i + |Quoted(name)|, seek := true, needColon := true)
    ensures k.top == p && k.alloc == s.alloc == |k.nodes|
    ensures k.nodes[p].kind == KObject && k.nodes[p].length == s.nodes[p].length
  {
    AtChar(text, s.c.i, '"');
    var b := OpenName(text, true, s);
    EndsOn(text, true, s, More(b));
    var t;
    name, t := StringAt(text, s.c.i, b);
    AtChar(text, t.c.i, '"');
    k := CloseName(text, true, t);
    EndsOn(text, true, t, More(k));
  }

  /** The colon, and after it the value. */
  lemma ColonAt(text: string, k: State) returns (gap1: string, gap2: string, x: State)
    requires Going(text, k) && k.c.seek && k.c.needColon && !k.c.needComma && !k.c.inString && !k.c.done
    requires TopOf(k) == Top(KObject)
    ensures White(gap1) && White(gap2) && AtText(text, k.c.i, gap1) && AtText(text, k.c.i + |gap1|, ":")
    ensures AtText(text, k.c.i + |gap1| + 1, gap2)
    ensures x == k.(c := k.c.(i := k.c.i + |gap1| + 1 + |gap2|, needColon := false))
    ensures Going(text, x) && !IsSpace(At(text, x.c.i)) && At(text, x.c.i) != ']'
  {
    var a;
    gap1, a := ReadSpaces(text, k);
    TurnGoes(text, a);
    AtChar(text, a.c.i, ':');
    var b := a.(c := a.c.(i := a.c.i + 1, needColon := false));
    gap2, x := ReadSpaces(text, b);
    TurnGoes(text, x);
  }

  lemma HeadingText(text: string, i: int, j: int, k: int, w: string, name: seq<Piece>, gap1: string, gap2: string)
    requires AtText(text, i, w) && AtText(text, j, Quoted(name)) && AtText(text, k, gap1)
    requires AtText(text, k + |gap1|, ":") && AtText(text, k + |gap1| + 1, gap2)
    requires j == i + |w| && k == j + |Quoted(name)|
    ensures AtText(text, i, Heading(w, name, gap1, gap2))
    ensures |Heading(w, name, gap1, gap2)| == k - i + |gap1| + 1 + |gap2|
  {
    AtJoin(text, i, w, Quoted(name));
    AtJoin(text, i, w + Quoted(name), gap1);
    AtJoin(text, i, w + Quoted(name) + gap1, ":");
    AtJoin(text, i, w + Quoted(name) + gap1 + ":", gap2);
  }

  /** What stands before a member's value. */
  lemma HeadingAt(text: string, st: State, w: string, s: State, p: nat)
    returns (name: seq<Piece>, gap1: string, gap2: string, x: State)
    requires BeforeMembers(text, s, p) && AtText(text, st.c.i, w) && s == Moved(st, |w|) && At(text, s.c.i) == '"'
    ensures StringOk(name) && White(gap1) && White(gap2) && AtText(text, st.c.i, Heading(w, name, gap1, gap2))
    ensures x.c == st.c.(i := st.c.i + |Heading(w, name, gap1, gap2)|, seek := true)
    ensures Going(text, x) && !IsSpace(At(text, x.c.i)) && At(text, x.c.i) != ']'
    ensures x.top == p && p < x.alloc == |x.nodes|
    ensures x.nodes[p].kind == KObject && x.nodes[p].length == st.nodes[p].length
  {
    var k;
    name, k := NameAt(text, s, p);
    gap1, gap2, x := ColonAt(text, k);
    HeadingText(text, st.c.i, s.c.i, k.c.i, w, name, gap1, gap2);
  }

  lemma MemberBegins(text: string, s: State, p: nat)
    requires BeforeMembers(text, s, p) && !IsSpace(At(text, s.c.i))
    ensures At(text, s.c.i) == '"' || At(text, s.c.i) == '}'
  {
    TurnGoes(text, s);
  }

  /** Past a member: its text, and what the pass comes to then. */
  lemma PassMemberAt(text: string, c: Control, heading: string, x: State, u: State, p: nat, d: Doc)
    returns (after: string, last: bool, y: State)
    requires AtText(text, c.i, heading) && x.c == c.(i := c.i + |heading|, seek := true) && !c.seek
    requires BeforeValue(text, x) && x.top == p && p < x.alloc == |x.nodes| && x.nodes[p].kind == KObject
    requires Ahead(text, true, x, d) && Leads(text, true, x, Complete(true, u)) && Took(true, x, u, d)
    ensures White(after) && ChildStands(text, c.i, heading, DocText(d), after, last, y.c.i) && Going(text, y)
    ensures last ==> AtText(text, y.c.i, "}")
    ensures x.nodes[p].length + 1 <= UINT_LIMIT && y.c == c.(i := y.c.i, needComma := last)
    ensures y.top == p < y.alloc == |y.nodes|
    ensures y.nodes[p].kind == KObject && y.nodes[p].length == x.nodes[p].length + 1
  {
    var v := PassChild(text, x, u, p, d);
    after, last, y := AfterChildAt(text, v, '}');
    AtSame(text, x.c.i, c.i + |heading|, DocText(d));
    ChildAt(text, c.i, v.c.i, heading, DocText(d), after, last);
  }

  lemma {:induction false} ReadMembers(text: string, st: State, p: nat) returns (members: Members)
    requires BeforeMembers(text, st, p)
    ensures AtMembers(text, true, st, p, members) && !members.NoMembers?
    decreases |text| - st.c.i, 2
  {
    var w, s := ReadSpaces(text, st);
    MemberBegins(text, s, p);
    if At(text, s.c.i) == '}' {
      members := NoMoreMembers(w);
      NoMemberAt(text, st, p, w);
    } else {
      var name, gap1, gap2, x := HeadingAt(text, st, w, s, p);
      var d := ReadValue(text, x);
      var u := RunValue(text, true, x, d);
      var after, last, y := PassMemberAt(text, st.c, Heading(w, name, gap1, gap2), x, u, p, d);
      var rest := NoMembers;
      if last {
        assert MembersText(rest) + "}" == "}";
      } else {
        rest := ReadMembers(text, y, p);
      }
      members := Member(w, name, gap1, gap2, d, after, rest);
      MemberAt(text, st, p, members, y.c.i);
    }
  }

  lemma {:induction false} ReadObject(text: string, st: State) returns (d: Doc)
    requires BeforeValue(text, st) && At(text, st.c.i) == '{'
    ensures Ahead(text, true, st, d)
    decreases |text| - st.c.i, 0
  {
    AtChar(text, st.c.i, '{');
    var f := OpenCollection(text, true, st, KObject);
    EndsOn(text, true, st, More(f));
    var members := ReadMembers(text, f, f.top);
    d := Object(members);
    AtJoin(text, st.c.i, "{", MembersText(members) + "}");
  }

  // ----- every value -----

  lemma {:induction false} ReadValue(text: string, st: State) returns (d: Doc)
    requires BeforeValue(text, st) && At(text, st.c.i) != ']'
    ensures Ahead(text, true, st, d)
    decreases |text| - st.c.i, 1
  {
    ValueBegins(text, st);
    var b := At(text, st.c.i);
    if b == '[' {
      d := ReadList(text, st);
    } else if b == '{' {
      d := ReadObject(text, st);
    } else if b == '"' {
      var ps := TextAt(text, st);
      d := Doc.Text(ps);
    } else if b == 't' || b == 'f' {
      d := Bool(b == 't');
    } else if b == 'n' {
      d := Null;
    } else {
      var n := NumberAt(text, st);
      d := Doc.Number(n);
    }
  }

  // ----- every text -----

  lemma RestOfText(text: string, i: nat) returns (rest: string)
    requires i <= |text| && At(text, i) == '\0'
    ensures AtText(text, i, rest) && i + |rest| == |text| && (rest != "" ==> rest[0] == '\0')
  {
    rest := text[i..];
    forall k | 0 <= k < |rest|
      ensures Stands(text, i, rest, k)
    {
    }
  }

  lemma AllOfText(text: string, t: string)
    requires AtText(text, 0, t) && |t| == |text|
    ensures text == t
  {
    forall k | 0 <= k < |t|
      ensures text[k] == t[k]
    {
      assert Stands(text, 0, t, k);
    }
  }

  /** After the root only white space, and then the end. */
  lemma EndAt(text: string, st: State, u: State) returns (gap2: string, rest: string)
    requires Ends(text, true, st) && Leads(text, true, st, Complete(true, u)) && TopOk(u) && !u.c.inString
    requires u.nodes[u.top].parent == -1 && 0 <= u.c.i <= |text|
    ensures White(gap2) && AtText(text, u.c.i, gap2) && AtText(text, u.c.i + |gap2|, rest)
    ensures u.c.i + |gap2| + |rest| == |text| && (rest != "" ==> rest[0] == '\0')
  {
    EndsOn(text, true, st, Complete(true, u));
    var v := u.(c := u.c.(needComma := true, done := true));
    var s;
    gap2, s := ReadSpaces(text, v);
    TurnGoes(text, s);
    rest := RestOfText(text, s.c.i);
  }

  /** Every accepted text writes a value. */
  lemma ReadText(text: string, fin: State) returns (gap1: string, d: Doc, gap2: string, rest: string)
    requires Leads(text, true, START, Done(fin))
    ensures Writes(text, gap1, d, gap2, rest)
  {
    var s;
    gap1, s := ReadSpaces(text, START);
    TurnGoes(text, s);
    d := ReadValue(text, s);
    var u := RunValue(text, true, s, d);
    gap2, rest := EndAt(text, s, u);
    WholeText(text, s.c.i, u.c.i, gap1, DocText(d), gap2, rest);
  }

  lemma WholeText(text: string, i: int, j: int, gap1: string, value: string, gap2: string, rest: string)
    requires AtText(text, 0, gap1) && AtText(text, i, value) && AtText(text, j, gap2) && AtText(text, j + |gap2|, rest)
    requires i == |gap1| && j == i + |value| && j + |gap2| + |rest| == |text|
    ensures text == gap1 + value + gap2 + rest
  {
    AtJoin(text, 0, gap1, value);
    AtJoin(text, 0, gap1 + value, gap2);
    AtJoin(text, 0, gap1 + value + gap2, rest);
    AllOfText(text, gap1 + value + gap2 + rest);
  }

  ghost predicate WritesSome(text: string) {
    exists gap1, d, gap2, rest :: Writes(text, gap1, d, gap2, rest)
  }

  /** The first pass accepts exactly the texts that write a value. */
  lemma Language(text: string)
    ensures (exists n :: Run(text, true, START, n).Done?) <==> WritesSome(text)
  {
    if n :| Run(text, true, START, n).Done? {
      RunLeads(text, true, START, n);
      var gap1, d, gap2, rest := ReadText(text, Run(text, true, START, n).st);
    }
    if gap1, d, gap2, rest :| Writes(text, gap1, d, gap2, rest) {
      var n, fin := WrittenCounts(text, gap1, d, gap2, rest);
    }
  }
}

/**
 What every turn of the first pass keeps: the arena stays a tree with the cursor inside it,
 the text cursor stays inside the text, every count only grows, and the loop makes progress.
 */
module JsonFirstPass {
  import opened JsonMachine

  predicate Container(k: Kind) {
    k == KObject || k == KArray
  }

  predicate Numeric(k: Kind) {
    k == KInteger || k == KDouble
  }

  /** Which flags go with which kind of value under the cursor. */
  predicate Mode(c: Control, t: Top) {
    && (t.NoTop? ==> c.seek && !c.needComma && !c.needColon && !c.inString && !c.done)
    && (c.inString ==> !c.seek && !c.done && (t == Top(KString) || t == Top(KObject)))
    && (c.inString && t == Top(KObject) ==> !c.needComma)
    && (c.escaped ==> c.inString)
    && (c.done ==> !c.seek)
    && (c.seek && t.Top? ==> Container(t.kind))
    && (c.seek && t == Top(KObject) ==> !c.needComma)
    && (!c.inString && !c.done && !c.seek ==> t.Top? && (t.kind == KObject || Numeric(t.kind)))
  }

  /** No value is open under the cursor that would have to wait: flag_next may run. */
  predicate Quiet(c: Control) {
    !c.seek && !c.inString && !c.done && !c.escaped
  }

  /** What the control carried by an action satisfies, action by action. */
  predicate Sound(text: string, c: Control, t: Top, a: Action) {
    match a
    case Reject => true
    case Accept => c.done
    case NullTop => false
    case Idle(d) =>
      Mode(d, t) && d.i == c.i + 1 <= |text| && d.seek == c.seek && d.inString == c.inString && d.done == c.done
    case Key(d) =>
      Mode(d, t) && d.i == c.i + 1 <= |text| && !c.inString && d.inString && t == Top(KObject) && !c.seek
    case Put(d, size, bytes) =>
      Mode(d, t) && c.i < d.i <= |text| && c.inString && d.inString && size == |bytes|
    case Quote(d) =>
      c.inString && d == c.(i := c.i + 1, inString := false) && !c.escaped && d.i <= |text|
    case Open(d, k) =>
      Mode(d, Top(k)) && c.i < d.i <= |text| && c.seek && !c.inString && !d.done &&
      d.inString == (k == KString) && (Container(k) || k == KString) && (d.seek ==> k == KArray)
    case Leaf(d, k) => Quiet(d) && c.i < d.i <= |text| && c.seek && (k.KBoolean? || k == KNull)
    case Number(d, minus) =>
      Quiet(d) && d.i == c.i < |text| && c.seek && !c.needComma && !c.needColon &&
      InNumber(At(text, c.i)) && minus == (At(text, c.i) == '-')
    case Digit(d, n, double, digit) =>
      d == c.(i := c.i + 1) && d.i <= |text| && Quiet(c) && t.Top? && Numeric(t.kind) && InNumber(At(text, c.i))
    case Close(d) =>
      Quiet(d) && c.i <= d.i <= |text| && t.Top? && !c.inString && !c.done &&
      (d.i == c.i ==> Numeric(t.kind) && d == c) && (c.seek ==> t == Top(KArray))
  }

  lemma SoundString(text: string, c: Control, t: Top)
    requires 0 <= c.i <= |text| && Mode(c, t) && c.inString
    ensures Sound(text, c, t, StringChar(text, c, At(text, c.i)))
  {
  }

  lemma SoundValue(text: string, c: Control, t: Top)
    requires 0 <= c.i <= |text| && Mode(c, t) && c.seek && !c.needComma && !c.needColon
    ensures Sound(text, c, t, Value(text, c, At(text, c.i)))
  {
    var b := At(text, c.i);
    if b == 't' && Follows(text, c.i, "rue", 3) {
      assert At(text, c.i + 1 + 2) == "rue"[2];
    } else if b == 'f' && Follows(text, c.i, "alse", 4) {
      assert At(text, c.i + 1 + 3) == "alse"[3];
    } else if b == 'n' && Follows(text, c.i, "ull", 3) {
      assert At(text, c.i + 1 + 2) == "ull"[2];
    }
  }

  lemma SoundSeek(text: string, c: Control, t: Top)
    requires 0 <= c.i <= |text| && Mode(c, t) && c.seek
    ensures Sound(text, c, t, Seek(text, c, t, At(text, c.i)))
  {
    if !c.needComma && !c.needColon {
      SoundValue(text, c, t);
    }
  }

  lemma SoundNumber(text: string, c: Control, n: Num, t: Top)
    requires 0 <= c.i <= |text| && Mode(c, t) && Quiet(c) && t.Top? && Numeric(t.kind)
    ensures Sound(text, c, t, NumberChar(c, n, t.kind == KInteger, At(text, c.i)))
  {
  }

  /** Every turn's action is sound in the mode it is decided in. */
  lemma DecideSound(text: string, c: Control, n: Num, t: Top, tooLong: bool)
    requires 0 <= c.i <= |text| && Mode(c, t)
    ensures Sound(text, c, t, Decide(text, c, n, t, tooLong))
  {
    if c.inString {
      SoundString(text, c, t);
    } else if !c.done && c.seek {
      SoundSeek(text, c, t);
    } else if !c.done && t.Top? && Numeric(t.kind) {
      SoundNumber(text, c, n, t);
    }
  }

  // ----- the arena -----

  /** Only the root has no parent, and parents are containers allocated earlier. */
  predicate Arena(nodes: seq<Node>) {
    forall j :: 0 <= j < |nodes| ==> Rooted(nodes, j)
  }

  predicate Rooted(nodes: seq<Node>, j: nat)
    requires j < |nodes|
  {
    if j == 0 then nodes[j].parent == -1
    else 0 <= nodes[j].parent < j && Container(nodes[nodes[j].parent].kind)
  }

  predicate Shape(text: string, st: State) {
    && 0 <= st.c.i <= |text|
    && st.alloc == |st.nodes|
    && Arena(st.nodes)
    && (st.nodes == [] ==> st.top == -1)
    && (st.nodes != [] ==> TopOk(st))
    && Mode(st.c, TopOf(st))
    && (st.c.done ==> st.top == 0)
  }

  /** The bytes already counted for value j if it is the string being read. */
  function LengthNow(st: State, j: nat): nat
    requires j < |st.nodes|
  {
    if st.c.inString && st.top == j && st.nodes[j].kind == KString then st.strLen else st.nodes[j].length
  }

  /** The key bytes already counted for object j, with the key being read and its terminator. */
  function KeysNow(st: State, j: nat): nat
    requires j < |st.nodes|
  {
    st.nodes[j].keyBytes + if st.c.inString && st.top == j && st.nodes[j].kind == KObject then st.strLen + 1 else 0
  }

  /** Kinds never change, except that an integer may turn out to be a double. */
  predicate SameKind(a: Kind, b: Kind) {
    a == b || (a == KInteger && b == KDouble)
  }

  /** A kind fresh from `new_value`: a number starts as an integer with nothing counted. */
  predicate GrowsAt(st: State, s: State, j: nat)
    requires j < |st.nodes| && j < |s.nodes|
  {
    && SameKind(st.nodes[j].kind, s.nodes[j].kind)
    && st.nodes[j].parent == s.nodes[j].parent
    && LengthNow(st, j) <= LengthNow(s, j)
    && KeysNow(st, j) <= KeysNow(s, j)
  }

  predicate Grows(st: State, s: State) {
    |st.nodes| <= |s.nodes| && forall j :: 0 <= j < |st.nodes| ==> GrowsAt(st, s, j)
  }

  lemma GrowsTrans(a: State, b: State, c: State)
    requires Grows(a, b) && Grows(b, c)
    ensures Grows(a, c)
  {
    forall j | 0 <= j < |a.nodes|
      ensures GrowsAt(a, c, j)
    {
      assert GrowsAt(a, b, j) && GrowsAt(b, c, j);
    }
  }

  // ----- progress: the cursor advances, or the mode moves on without it -----

  function Urgency(c: Control, t: Top): nat {
    if c.inString || c.done then 0
    else if c.seek then if c.needComma || c.needColon then 0 else 2
    else if t.Top? && Numeric(t.kind) then 1
    else 0
  }

  function Remaining(text: string, st: State): int {
    3 * (|text| - st.c.i) + Urgency(st.c, TopOf(st))
  }

  /** What every turn of the first pass guarantees. */
  predicate Good(text: string, st: State, s: State) {
    Shape(text, s) && Grows(st, s) && Remaining(text, s) < Remaining(text, st)
  }

  /** Only node j changed, and it grew. */
  lemma UpdateGrows(st: State, s: State, j: nat, v: Node)
    requires j < |st.nodes| && s.nodes == st.nodes[j := v]
    requires !s.c.inString || (st.c.inString && s.top == st.top)
    requires !st.c.inString || j == st.top
    requires GrowsAt(st, s, j)
    ensures Grows(st, s)
  {
  }

  lemma UpdateArena(nodes: seq<Node>, j: nat, v: Node)
    requires Arena(nodes) && j < |nodes| && v.parent == nodes[j].parent
    requires Container(nodes[j].kind) ==> v.kind == nodes[j].kind
    ensures Arena(nodes[j := v])
  {
    var ns := nodes[j := v];
    forall k | 0 <= k < |ns|
      ensures Rooted(ns, k)
    {
      assert Rooted(nodes, k);
    }
  }

  /** Completing the value under the cursor in the first pass. */
  lemma CompleteGood(text: string, st: State, o: Outcome)
    requires 0 <= st.c.i <= |text| && st.alloc == |st.nodes| && Arena(st.nodes) && TopOk(st) && Quiet(st.c)
    requires o == Complete(true, st)
    ensures o.Rejected? || o.More?
    ensures o.More? ==> Shape(text, o.st) && Grows(st, o.st) && o.st.c.i == st.c.i
                        && Urgency(o.st.c, TopOf(o.st)) == 0
  {
    assert Rooted(st.nodes, st.top);
    if o.More? {
      var s, p := o.st, st.nodes[st.top].parent;
      if p != -1 {
        var v := WithChild(true, st.nodes[p], st.top);
        assert s.nodes == st.nodes[p := v];
        UpdateArena(st.nodes, p, v);
        UpdateGrows(st, s, p, v);
      } else {
        assert s.nodes == st.nodes;
      }
    }
  }

  lemma NewValueGood(st: State, kind: Kind, s: State)
    requires Arena(st.nodes) && st.alloc == |st.nodes| && NewValue(true, st, kind) == More(s)
    requires if st.nodes == [] then st.top == -1 else TopOk(st) && Container(st.nodes[st.top].kind)
    ensures Arena(s.nodes) && s.alloc == |s.nodes| == |st.nodes| + 1
    ensures TopOk(s) && TopOf(s) == Top(kind) && s.c == st.c && s.strLen == st.strLen
    ensures forall j :: 0 <= j < |st.nodes| ==> s.nodes[j] == st.nodes[j]
    ensures s.top == |st.nodes| && s.nodes[s.top] == Fresh(kind, st.top)
  {
    forall k | 0 <= k < |s.nodes|
      ensures Rooted(s.nodes, k)
    {
      if k < |st.nodes| {
        assert Rooted(st.nodes, k);
      }
    }
  }

  /** Appending a value leaves what was counted before, unless a string was being read. */
  lemma AppendGrows(st: State, s: State)
    requires !st.c.inString && |st.nodes| < |s.nodes| && s.top == |st.nodes|
    requires forall j :: 0 <= j < |st.nodes| ==> s.nodes[j] == st.nodes[j]
    ensures Grows(st, s)
  {
  }

  // ----- one lemma per action -----

  lemma GoodPut(text: string, st: State, a: Action, o: Outcome)
    requires Shape(text, st) && a.Put? && Sound(text, st.c, TopOf(st), a) && o == Apply(text, true, st, a)
    ensures o.More? && Good(text, st, o.st)
  {
  }

  lemma GoodMove(text: string, st: State, a: Action, o: Outcome)
    requires Shape(text, st) && (a.Idle? || a.Key?) && Sound(text, st.c, TopOf(st), a) && o == Apply(text, true, st, a)
    ensures o.More? && Good(text, st, o.st)
  {
  }

  lemma GoodQuote(text: string, st: State, a: Action, o: Outcome)
    requires Shape(text, st) && a.Quote? && Sound(text, st.c, TopOf(st), a) && o == Apply(text, true, st, a)
    ensures o.Rejected? || (o.More? && Good(text, st, o.st))
  {
    var t := st.(c := a.c);
    var v := st.nodes[st.top];
    if v.kind == KString {
      var w := WithString(t, v);
      var u := t.(nodes := st.nodes[st.top := w]);
      UpdateArena(st.nodes, st.top, w);
      UpdateGrows(st, u, st.top, w);
      CompleteGood(text, u, o);
      if o.More? {
        GrowsTrans(st, u, o.st);
      }
    } else {
      var w := WithKey(true, t, v);
      UpdateArena(st.nodes, st.top, w);
      assert o.st.nodes == st.nodes[st.top := w];
      UpdateGrows(st, o.st, st.top, w);
    }
  }

  lemma GoodOpen(text: string, st: State, a: Action, o: Outcome)
    requires Shape(text, st) && a.Open? && Sound(text, st.c, TopOf(st), a) && o == Apply(text, true, st, a)
    ensures o.More? && Good(text, st, o.st)
  {
    var t := st.(c := a.c, strLen := 0, buf := "");
    NewValueGood(t, a.kind, o.st);
    AppendGrows(st, o.st);
  }

  lemma GoodLeaf(text: string, st: State, a: Action, o: Outcome)
    requires Shape(text, st) && a.Leaf? && Sound(text, st.c, TopOf(st), a) && o == Apply(text, true, st, a)
    ensures o.Rejected? || (o.More? && Good(text, st, o.st))
  {
    var t := st.(c := a.c);
    var u := NewValue(true, t, a.kind).st;
    NewValueGood(t, a.kind, u);
    AppendGrows(st, u);
    CompleteGood(text, u, o);
    if o.More? {
      GrowsTrans(st, u, o.st);
    }
  }

  lemma GoodNumber(text: string, st: State, a: Action, o: Outcome)
    requires Shape(text, st) && a.Number? && Sound(text, st.c, TopOf(st), a) && o == Apply(text, true, st, a)
    ensures o.More? && Good(text, st, o.st)
  {
    var t := st.(c := a.c);
    var u := NewValue(true, t, KInteger).st;
    NewValueGood(t, KInteger, u);
    assert o == StartNumber(text, true, u, a.minus);
    AppendGrows(st, o.st);
  }

  lemma GoodDigit(text: string, st: State, a: Action, o: Outcome)
    requires Shape(text, st) && a.Digit? && Sound(text, st.c, TopOf(st), a) && o == Apply(text, true, st, a)
    ensures o.More? && Good(text, st, o.st)
  {
    if a.double || a.digit >= 0 {
      var w := Counted(st.nodes[st.top], a.num, a.double, a.digit);
      UpdateArena(st.nodes, st.top, w);
      UpdateGrows(st, o.st, st.top, w);
    } else {
      assert o.st.nodes == st.nodes;
    }
  }

  lemma GoodClose(text: string, st: State, a: Action, o: Outcome)
    requires Shape(text, st) && a.Close? && Sound(text, st.c, TopOf(st), a) && o == Apply(text, true, st, a)
    ensures o.Rejected? || (o.More? && Good(text, st, o.st))
  {
    var t := st.(c := a.c);
    CompleteGood(text, t, o);
    assert Grows(st, t);
    if o.More? {
      GrowsTrans(st, t, o.st);
    }
  }

  /**
   The first pass never dereferences a null cursor, and every turn that goes on keeps the
   shape, lets counts only grow and comes strictly closer to its end.
   */
  lemma FirstPassStep(text: string, st: State)
    requires Shape(text, st)
    ensures var o := Step(text, true, st);
            !o.Crashed? && (o.More? ==> Good(text, st, o.st)) && (o.Done? ==> o.st == st && st.c.done)
  {
    var a := Next(text, st);
    var o := Step(text, true, st);
    DecideSound(text, st.c, st.num, TopOf(st), st.strLen > UINT_LIMIT);
    match a {
      case Reject =>
      case Accept =>
      case NullTop =>
      case Idle(_) => GoodMove(text, st, a, o);
      case Key(_) => GoodMove(text, st, a, o);
      case Put(_, _, _) => GoodPut(text, st, a, o);
      case Quote(_) => GoodQuote(text, st, a, o);
      case Open(_, _) => GoodOpen(text, st, a, o);
      case Leaf(_, _) => GoodLeaf(text, st, a, o);
      case Number(_, _) => GoodNumber(text, st, a, o);
      case Digit(_, _, _, _) => GoodDigit(text, st, a, o);
      case Close(_) => GoodClose(text, st, a, o);
    }
  }

  // ----- the chain of open values from the cursor to the root -----

  predicate OnPath(nodes: seq<Node>, t: int, j: int)
    decreases if t < 0 then 0 else t + 1
  {
    0 <= t < |nodes| && (t == j || (nodes[t].parent < t && OnPath(nodes, nodes[t].parent, j)))
  }

  lemma {:induction false} OnPathBelow(nodes: seq<Node>, t: int, j: int)
    requires OnPath(nodes, t, j)
    ensures 0 <= j <= t
    decreases if t < 0 then 0 else t + 1
  {
    if t != j {
      OnPathBelow(nodes, nodes[t].parent, j);
    }
  }

  predicate SameParents(n: seq<Node>, m: seq<Node>) {
    |n| <= |m| && forall k :: 0 <= k < |n| ==> n[k].parent == m[k].parent
  }

  lemma {:induction false} OnPathSame(n: seq<Node>, m: seq<Node>, t: int, j: int)
    requires SameParents(n, m) && t < |n|
    ensures OnPath(n, t, j) == OnPath(m, t, j)
    decreases if t < 0 then 0 else t + 1
  {
    if 0 <= t && t != j && n[t].parent < t {
      OnPathSame(n, m, n[t].parent, j);
    }
  }

  /** A value is not among its own ancestors. */
  lemma NotOwnAncestor(nodes: seq<Node>, t: nat)
    requires t < |nodes| && Arena(nodes)
    ensures !OnPath(nodes, nodes[t].parent, t)
  {
    assert Rooted(nodes, t);
    if OnPath(nodes, nodes[t].parent, t) {
      OnPathBelow(nodes, nodes[t].parent, t);
    }
  }

  /** Whether object j has a key whose value is not complete; `pend` says so of the cursor's own object. */
  predicate Pending(n: seq<Node>, top: int, pend: bool, j: int) {
    (j == top && pend) || (0 <= top < |n| && OnPath(n, n[top].parent, j))
  }

  // ----- an object's children, counting the one its last key announced -----

  function Promised(st: State, j: nat): nat
    requires j < |st.nodes|
  {
    st.nodes[j].length + if Pending(st.nodes, st.top, st.c.seek, j) then 1 else 0
  }

  predicate PromisesAt(st: State, s: State, j: nat)
    requires j < |st.nodes| && j < |s.nodes|
  {
    st.nodes[j].kind == KObject ==> s.nodes[j].kind == KObject && Promised(st, j) <= Promised(s, j)
  }

  predicate Promises(st: State, s: State) {
    |st.nodes| <= |s.nodes| && forall j :: 0 <= j < |st.nodes| ==> PromisesAt(st, s, j)
  }

  lemma PromisesTrans(a: State, b: State, c: State)
    requires Promises(a, b) && Promises(b, c)
    ensures Promises(a, c)
  {
    forall j | 0 <= j < |a.nodes|
      ensures PromisesAt(a, c, j)
    {
      assert PromisesAt(a, b, j) && PromisesAt(b, c, j);
    }
  }

  lemma PromisesUpdate(st: State, s: State, v: Node)
    requires Arena(st.nodes) && TopOk(st) && s.nodes == st.nodes[st.top := v] && s.top == st.top
    requires v.parent == st.nodes[st.top].parent
    requires st.nodes[st.top].kind == KObject ==> v.kind == KObject && v.length == st.nodes[st.top].length
    requires st.c.seek ==> s.c.seek
    ensures Promises(st, s)
  {
    forall j | 0 <= j < |st.nodes|
      ensures PromisesAt(st, s, j)
    {
      assert Rooted(st.nodes, st.top);
      OnPathSame(st.nodes, s.nodes, st.nodes[st.top].parent, j);
    }
  }

  lemma PromisesNew(st: State, kind: Kind, c: Control, s: State)
    requires Arena(st.nodes) && NewValue(true, st.(c := c), kind) == More(s)
    requires if st.nodes == [] then st.top == -1 else TopOk(st)
    ensures Promises(st, s)
  {
    forall j | 0 <= j < |st.nodes|
      ensures PromisesAt(st, s, j)
    {
      assert SameParents(st.nodes, s.nodes);
      OnPathSame(st.nodes, s.nodes, st.top, j);
      if TopOk(st) {
        assert Rooted(st.nodes, st.top);
      }
    }
  }

  lemma PromisesComplete(st: State, s: State)
    requires Arena(st.nodes) && TopOk(st) && !st.c.seek && Complete(true, st) == More(s)
    ensures Promises(st, s)
  {
    var t, p := st.top, st.nodes[st.top].parent;
    assert Rooted(st.nodes, t);
    if p != -1 {
      assert Rooted(st.nodes, p);
      forall j | 0 <= j < |st.nodes|
        ensures PromisesAt(st, s, j)
      {
        OnPathSame(st.nodes, s.nodes, st.nodes[p].parent, j);
        assert OnPath(st.nodes, p, j) == (p == j || OnPath(st.nodes, st.nodes[p].parent, j));
      }
    }
  }

  /** No turn of the first pass breaks the promise of a child that a key has made. */
  lemma PromisesStep(text: string, st: State)
    requires Shape(text, st)
    ensures var o := Step(text, true, st); o.More? ==> Promises(st, o.st)
  {
    var x, o := Next(text, st), Step(text, true, st);
    DecideSound(text, st.c, st.num, TopOf(st), st.strLen > UINT_LIMIT);
    if o.More? {
      match x {
        case Quote(c) => PromisesQuote(text, st, x, o.st);
        case Open(c, kind) =>
          var u := st.(strLen := 0, buf := "");
          PromisesSame(st, u);
          PromisesNew(u, kind, c, o.st);
          PromisesTrans(st, u, o.st);
        case Leaf(c, kind) =>
          var u := NewValue(true, st.(c := c), kind).st;
          NewValueGood(st.(c := c), kind, u);
          PromisesNew(st, kind, c, u);
          PromisesComplete(u, o.st);
          PromisesTrans(st, u, o.st);
        case Number(c, minus) =>
          var u := NewValue(true, st.(c := c), KInteger).st;
          PromisesNew(st, KInteger, c, u);
          PromisesSame(u, o.st);
          PromisesTrans(st, u, o.st);
        case Digit(c, n, double, digit) =>
          if double || digit >= 0 {
            PromisesUpdate(st, o.st, Counted(st.nodes[st.top], n, double, digit));
          } else {
            PromisesSame(st, o.st);
          }
        case Close(c) => PromisesClose(text, st, x, o.st);
        case Idle(_) => PromisesSame(st, o.st);
        case Key(_) => PromisesSame(st, o.st);
        case Put(_, _, _) => PromisesSame(st, o.st);
        case Reject =>
        case Accept =>
        case NullTop =>
      }
    }
  }

  lemma PromisesSame(st: State, s: State)
    requires s.nodes == st.nodes && s.top == st.top && s.c.seek == st.c.seek
    ensures Promises(st, s)
  {
  }

  lemma PromisesClose(text: string, st: State, x: Action, s: State)
    requires Shape(text, st) && x.Close? && Sound(text, st.c, TopOf(st), x) && Apply(text, true, st, x) == More(s)
    ensures Promises(st, s)
  {
    var u := st.(c := x.c);
    assert Promises(st, u) by {
      forall j | 0 <= j < |st.nodes|
        ensures PromisesAt(st, u, j)
      {
      }
    }
    PromisesComplete(u, s);
    PromisesTrans(st, u, s);
  }

  lemma PromisesQuote(text: string, st: State, x: Action, s: State)
    requires Shape(text, st) && x.Quote? && Sound(text, st.c, TopOf(st), x) && Apply(text, true, st, x) == More(s)
    ensures Promises(st, s)
  {
    var t := st.(c := x.c);
    var v := st.nodes[st.top];
    if v.kind == KString {
      var u := t.(nodes := st.nodes[st.top := WithString(t, v)]);
      PromisesUpdate(st, u, WithString(t, v));
      UpdateArena(st.nodes, st.top, WithString(t, v));
      PromisesComplete(u, s);
      PromisesTrans(st, u, s);
    } else {
      PromisesUpdate(st, s, WithKey(true, t, v));
    }
  }

  /** The whole first pass: from a shaped state to its end, counts and promises only grow. */
  lemma {:induction false} FirstPassRun(text: string, st: State, n: nat, fin: State)
    requires Shape(text, st) && Run(text, true, st, n) == Done(fin)
    ensures Shape(text, fin) && fin.c.done && Grows(st, fin) && Promises(st, fin)
    decreases n
  {
    FirstPassStep(text, st);
    PromisesStep(text, st);
    var o := Step(text, true, st);
    if o.More? {
      FirstPassRun(text, o.st, n - 1, fin);
      GrowsTrans(st, o.st, fin);
      PromisesTrans(st, o.st, fin);
    }
  }
}

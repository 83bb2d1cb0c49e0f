/**
 The second pass of `json_parse_ex` replays the first: on any text the first pass accepts it
 takes up the same values in the same order, never writes outside what was allocated from
 the counts, and fills every allocation exactly.
 */
module JsonTwoPass {
  import opened JsonMachine
  import opened JsonFirstPass

  // ----- how the two passes' values correspond -----

  predicate Sized(k: Kind) {
    Container(k) || k == KString
  }

  /** The bytes that names take up, each with its terminator. */
  function Packed(names: seq<string>): nat {
    if names == [] then 0 else Packed(names[..|names| - 1]) + |names[|names| - 1]| + 1
  }

  lemma PackedNext(names: seq<string>, name: string)
    ensures Packed(names + [name]) == Packed(names) + |name| + 1
  {
    assert (names + [name])[..|names|] == names;
  }

  /** a as counted so far, b as filled so far, f as finally counted. */
  predicate NodeRel(a: Node, b: Node, f: Node) {
    && SameKind(a.kind, f.kind) && b.kind == f.kind
    && a.parent == b.parent == f.parent && b.number == f.number
    && (Sized(b.kind) ==> b.length == a.length && b.cap == f.length)
    && (b.kind == KObject ==> Packed(b.names) == b.keyBytes == a.keyBytes && b.keyCap == f.keyBytes)
    && (b.kind == KString ==> |b.chars| == b.length)
    && (Container(b.kind) ==> |b.kids| == b.length)
  }

  predicate NamesOk(n: seq<Node>, b: Node, top: int, pend: bool, j: int) {
    b.kind == KObject ==> |b.names| == b.length + if Pending(n, top, pend, j) then 1 else 0
  }

  /** The links of value j lead to its own children, in allocation order. */
  predicate KidsOk(n: seq<Node>, kids: seq<int>, j: int) {
    forall k :: 0 <= k < |kids| ==>
                  0 <= kids[k] < |n| && n[kids[k]].parent == j && forall m :: 0 <= m < k ==> kids[m] < kids[k]
  }

  predicate KidsBefore(kids: seq<int>, t: int) {
    forall k :: 0 <= k < |kids| ==> kids[k] < t
  }

  /** Everything linked into an open value was complete before its open child was allocated. */
  predicate PathKids(n: seq<Node>, m: seq<Node>, top: int) {
    forall t :: 0 <= t < |n| && OnPath(n, top, t) && 0 <= n[t].parent < |m| ==> KidsBefore(m[n[t].parent].kids, t)
  }

  /** Every value is linked into its parent, unless it is still open. */
  predicate Linked(n: seq<Node>, m: seq<Node>, top: int) {
    forall c :: 0 <= c < |n| && 0 <= n[c].parent < |m| ==> c in m[n[c].parent].kids || OnPath(n, top, c)
  }

  predicate NodesRel(n: seq<Node>, m: seq<Node>, f: seq<Node>, top: int, pend: bool) {
    && |n| <= |m| == |f|
    && (forall j :: 0 <= j < |n| ==> NodeRel(n[j], m[j], f[j]))
    && (forall j :: |n| <= j < |f| ==> m[j] == f[j])
    && (forall j :: 0 <= j < |n| ==> NamesOk(n, m[j], top, pend, j))
    && (forall j :: 0 <= j < |n| ==> KidsOk(n, m[j].kids, j))
    && PathKids(n, m, top)
    && Linked(n, m, top)
  }

  /** The passes are in step: same control, same cursor, corresponding arenas. */
  predicate InStep(a: State, b: State, fin: State) {
    && b.c == a.c && b.top == a.top && b.alloc == a.alloc && b.strLen == a.strLen
    && (a.c.inString ==> |b.buf| == a.strLen)
    && NodesRel(a.nodes, b.nodes, fin.nodes, a.top, a.c.seek)
  }

  /** The first pass is over: nothing is being read and nothing is pending. */
  predicate Ended(fin: State) {
    !fin.c.inString && !fin.c.seek && fin.top == 0 && Arena(fin.nodes)
  }

  // ----- changing the value under the cursor -----

  lemma UpdateRel(n: seq<Node>, m: seq<Node>, f: seq<Node>, top: int, pend: bool, pend': bool, a: Node, b: Node)
    requires Arena(n) && NodesRel(n, m, f, top, pend) && 0 <= top < |n|
    requires NodeRel(a, b, f[top]) && a.parent == n[top].parent && b.kids == m[top].kids
    requires NamesOk(n, b, top, pend', top)
    ensures NodesRel(n[top := a], m[top := b], f, top, pend')
  {
    var n', m' := n[top := a], m[top := b];
    forall j | 0 <= j < |n|
      ensures NamesOk(n', m'[j], top, pend', j)
    {
      assert NamesOk(n, m[j], top, pend, j);
      assert Rooted(n, top);
      OnPathSame(n, n', n[top].parent, j);
    }
    forall j | 0 <= j < |n|
      ensures KidsOk(n', m'[j].kids, j)
    {
      assert KidsOk(n, m[j].kids, j);
    }
    forall t | 0 <= t < |n'| && OnPath(n', top, t) && 0 <= n'[t].parent < |m'|
      ensures KidsBefore(m'[n'[t].parent].kids, t)
    {
      OnPathSame(n, n', top, t);
    }
    forall t | 0 <= t < |n'| && 0 <= n'[t].parent < |m'|
      ensures t in m'[n'[t].parent].kids || OnPath(n', top, t)
    {
      OnPathSame(n, n', top, t);
    }
  }

  /** Whether the cursor's object waits for a value matters only for objects. */
  lemma PendRel(n: seq<Node>, m: seq<Node>, f: seq<Node>, top: int, pend: bool, pend': bool)
    requires NodesRel(n, m, f, top, pend)
    requires 0 <= top < |n| ==> m[top].kind != KObject || pend == pend'
    ensures NodesRel(n, m, f, top, pend')
  {
  }

  // ----- taking up the next value -----

  lemma NewRel(n: seq<Node>, m: seq<Node>, f: seq<Node>, top: int, kind: Kind)
    requires Arena(n) && NodesRel(n, m, f, top, true) && |n| < |f|
    requires if n == [] then top == -1 else 0 <= top < |n|
    requires SameKind(kind, f[|n|].kind) && f[|n|].parent == top
    ensures NodesRel(n + [Fresh(kind, top)], m[|n| := Emptied(m[|n|])], f, |n|, false)
  {
    var n', m' := n + [Fresh(kind, top)], m[|n| := Emptied(m[|n|])];
    assert m[|n|] == f[|n|];
    assert forall j :: 0 <= j < |n| ==> n'[j] == n[j] && m'[j] == m[j];
    forall j | 0 <= j < |n'|
      ensures NamesOk(n', m'[j], |n|, false, j)
    {
      NewNames(n, m, f, top, kind, j);
    }
    forall j | 0 <= j < |n'|
      ensures KidsOk(n', m'[j].kids, j)
    {
      if j < |n| {
        assert KidsOk(n, m[j].kids, j);
      }
    }
    forall t | 0 <= t < |n'| && OnPath(n', |n|, t) && 0 <= n'[t].parent < |m'|
      ensures KidsBefore(m'[n'[t].parent].kids, t)
    {
      NewPathKids(n, m, f, top, kind, t);
      if t < |n| {
        assert Rooted(n, t);
      }
    }
    NewLinked(n, m, f, top, kind);
  }

  lemma NewLinked(n: seq<Node>, m: seq<Node>, f: seq<Node>, top: int, kind: Kind)
    requires Arena(n) && NodesRel(n, m, f, top, true) && |n| < |f|
    requires if n == [] then top == -1 else 0 <= top < |n|
    ensures Linked(n + [Fresh(kind, top)], m[|n| := Emptied(m[|n|])], |n|)
  {
    var n', m' := n + [Fresh(kind, top)], m[|n| := Emptied(m[|n|])];
    forall t | 0 <= t < |n'| && 0 <= n'[t].parent < |m'|
      ensures t in m'[n'[t].parent].kids || OnPath(n', |n|, t)
    {
      if t < |n| {
        assert Rooted(n, t);
        OnPathSame(n, n', top, t);
      }
    }
  }

  lemma NewNames(n: seq<Node>, m: seq<Node>, f: seq<Node>, top: int, kind: Kind, j: nat)
    requires Arena(n) && NodesRel(n, m, f, top, true) && |n| < |f| && j <= |n|
    requires if n == [] then top == -1 else 0 <= top < |n|
    ensures NamesOk(n + [Fresh(kind, top)], m[|n| := Emptied(m[|n|])][j], |n|, false, j)
  {
    var n' := n + [Fresh(kind, top)];
    assert SameParents(n, n');
    OnPathSame(n, n', top, j);
    if j < |n| {
      assert NamesOk(n, m[j], top, true, j);
      if n != [] {
        assert Rooted(n, top);
      }
    } else if OnPath(n', top, j) {
      OnPathBelow(n', top, j);
    }
  }

  lemma NewPathKids(n: seq<Node>, m: seq<Node>, f: seq<Node>, top: int, kind: Kind, t: nat)
    requires Arena(n) && NodesRel(n, m, f, top, true) && |n| < |f| && t <= |n|
    requires if n == [] then top == -1 else 0 <= top < |n|
    requires OnPath(n + [Fresh(kind, top)], |n|, t)
    ensures var n' := n + [Fresh(kind, top)];
            0 <= n'[t].parent < |n| ==> KidsBefore(m[n'[t].parent].kids, t)
  {
    var n' := n + [Fresh(kind, top)];
    if t == |n| {
      if 0 <= top < |n| {
        assert KidsOk(n, m[top].kids, top);
      }
    } else {
      assert SameParents(n, n');
      OnPathSame(n, n', top, t);
      assert OnPath(n, top, t);
    }
  }

  // ----- completing a value -----

  lemma CompleteRel(n: seq<Node>, m: seq<Node>, f: seq<Node>, top: int, p: int)
    requires Arena(n) && NodesRel(n, m, f, top, false) && 0 <= top < |n| && p == n[top].parent && 0 <= p
    ensures p < top
    ensures NodesRel(n[p := WithChild(true, n[p], top)], m[p := WithChild(false, m[p], top)], f, p, false)
  {
    assert Rooted(n, top);
    var a, b := WithChild(true, n[p], top), WithChild(false, m[p], top);
    var n', m' := n[p := a], m[p := b];
    assert NodeRel(a, b, f[p]) by {
      assert Rooted(n, p) && NodeRel(n[p], m[p], f[p]);
    }
    forall j | 0 <= j < |n|
      ensures NamesOk(n', m'[j], p, false, j)
    {
      CompleteNames(n, m, f, top, p, j);
    }
    forall j | 0 <= j < |n|
      ensures KidsOk(n', m'[j].kids, j)
    {
      CompleteKids(n, m, top, p, j);
    }
    CompletePathKids(n, m, top, p);
    CompleteLinked(n, m, top, p);
  }

  lemma CompleteKids(n: seq<Node>, m: seq<Node>, top: int, p: int, j: nat)
    requires |n| <= |m| && PathKids(n, m, top) && 0 <= top < |n| && p == n[top].parent && 0 <= p < top
    requires j < |n| && KidsOk(n, m[j].kids, j)
    ensures KidsOk(n[p := WithChild(true, n[p], top)], m[p := WithChild(false, m[p], top)][j].kids, j)
  {
  }

  lemma CompletePathKids(n: seq<Node>, m: seq<Node>, top: int, p: int)
    requires Arena(n) && |n| <= |m| && PathKids(n, m, top) && 0 <= top < |n| && p == n[top].parent && 0 <= p < top
    ensures PathKids(n[p := WithChild(true, n[p], top)], m[p := WithChild(false, m[p], top)], p)
  {
    var n', m' := n[p := WithChild(true, n[p], top)], m[p := WithChild(false, m[p], top)];
    forall t | 0 <= t < |n'| && OnPath(n', p, t) && 0 <= n'[t].parent < |m'|
      ensures KidsBefore(m'[n'[t].parent].kids, t)
    {
      OnPathSame(n, n', p, t);
      OnPathBelow(n, p, t);
      assert Rooted(n, t);
      assert OnPath(n, top, t);
    }
  }

  lemma CompleteLinked(n: seq<Node>, m: seq<Node>, top: int, p: int)
    requires Arena(n) && Linked(n, m, top) && |n| <= |m| && 0 <= top < |n| && p == n[top].parent && 0 <= p < top
    ensures Linked(n[p := WithChild(true, n[p], top)], m[p := WithChild(false, m[p], top)], p)
  {
    var n', m' := n[p := WithChild(true, n[p], top)], m[p := WithChild(false, m[p], top)];
    assert m'[p].kids == m[p].kids + [top];
    forall t | 0 <= t < |n'| && 0 <= n'[t].parent < |m'|
      ensures t in m'[n'[t].parent].kids || OnPath(n', p, t)
    {
      OnPathSame(n, n', p, t);
    }
  }

  lemma CompleteNames(n: seq<Node>, m: seq<Node>, f: seq<Node>, top: int, p: int, j: nat)
    requires Arena(n) && NodesRel(n, m, f, top, false) && 0 <= top < |n| && p == n[top].parent && 0 <= p < top
    requires j < |n|
    ensures NamesOk(n[p := WithChild(true, n[p], top)], m[p := WithChild(false, m[p], top)][j], p, false, j)
  {
    var n' := n[p := WithChild(true, n[p], top)];
    assert NamesOk(n, m[j], top, false, j);
    assert Rooted(n, p);
    OnPathSame(n, n', n[p].parent, j);
    if OnPath(n, n[p].parent, j) {
      OnPathBelow(n, n[p].parent, j);
    }
    assert OnPath(n, p, j) == (p == j || OnPath(n, n[p].parent, j));
  }

  // ----- the second pass follows every turn of the first -----

  /** The number automaton runs in the first pass only. */
  predicate InNumberMode(a: State) {
    Quiet(a.c) && TopOk(a) && Numeric(a.nodes[a.top].kind)
  }

  lemma SameAction(text: string, a: State, b: State, fin: State)
    requires Shape(text, a) && InStep(a, b, fin) && !InNumberMode(a)
    ensures Next(text, b) == Next(text, a)
  {
  }

  lemma FollowPut(text: string, a: State, b: State, fin: State, x: Action, s: State)
    requires Shape(text, a) && InStep(a, b, fin) && Ended(fin)
    requires x.Put? && Sound(text, a.c, TopOf(a), x) && Apply(text, true, a, x) == More(s) && Grows(s, fin)
    ensures var o := Apply(text, false, b, x); o.More? && InStep(s, o.st, fin)
  {
    assert NodeRel(a.nodes[a.top], b.nodes[a.top], fin.nodes[a.top]);
    assert GrowsAt(s, fin, a.top);
    PendRel(a.nodes, b.nodes, fin.nodes, a.top, a.c.seek, x.c.seek);
  }

  lemma FollowMove(text: string, a: State, b: State, fin: State, x: Action, s: State)
    requires Shape(text, a) && InStep(a, b, fin)
    requires (x.Idle? || x.Key?) && Sound(text, a.c, TopOf(a), x) && Apply(text, true, a, x) == More(s)
    requires a.c.inString ==> x.Idle?
    ensures var o := Apply(text, false, b, x); o.More? && InStep(s, o.st, fin)
  {
  }

  /** Completing the value under the cursor in both passes. */
  lemma FollowComplete(text: string, a: State, b: State, fin: State, s: State)
    requires Arena(a.nodes) && TopOk(a) && Quiet(a.c) && Ended(fin)
    requires b.c == a.c && b.top == a.top && b.alloc == a.alloc && b.strLen == a.strLen
    requires NodesRel(a.nodes, b.nodes, fin.nodes, a.top, false)
    requires Complete(true, a) == More(s) && Grows(s, fin)
    ensures var o := Complete(false, b); o.More? && InStep(s, o.st, fin)
  {
    var p := a.nodes[a.top].parent;
    assert NodeRel(a.nodes[a.top], b.nodes[a.top], fin.nodes[a.top]);
    assert Rooted(a.nodes, a.top);
    if p != -1 {
      assert NodeRel(a.nodes[p], b.nodes[p], fin.nodes[p]);
      assert GrowsAt(s, fin, p);
      assert s.nodes[p].length == a.nodes[p].length + 1;
      CompleteRel(a.nodes, b.nodes, fin.nodes, a.top, p);
      PendRel(s.nodes, Complete(false, b).st.nodes, fin.nodes, p, false, s.c.seek);
    }
  }

  lemma FollowKey(text: string, a: State, b: State, fin: State, x: Action, s: State)
    requires Shape(text, a) && InStep(a, b, fin) && Ended(fin) && TopOf(a) == Top(KObject)
    requires x.Quote? && Sound(text, a.c, TopOf(a), x) && Apply(text, true, a, x) == More(s)
    requires Grows(s, fin) && Promises(s, fin)
    ensures var o := Apply(text, false, b, x); o.More? && InStep(s, o.st, fin)
  {
    var t := a.top;
    assert NodeRel(a.nodes[t], b.nodes[t], fin.nodes[t]) && NamesOk(a.nodes, b.nodes[t], t, false, t);
    assert GrowsAt(s, fin, t) && PromisesAt(s, fin, t);
    NotOwnAncestor(a.nodes, t);
    var v, w := WithKey(true, a.(c := x.c), a.nodes[t]), WithKey(false, b.(c := x.c), b.nodes[t]);
    assert s.nodes == a.nodes[t := v] && Pending(s.nodes, t, true, t);
    assert Rooted(fin.nodes, 0);
    assert b.nodes[t].length < b.nodes[t].cap;
    assert b.nodes[t].names[..|b.nodes[t].names|] == b.nodes[t].names;
    PackedNext(b.nodes[t].names, b.buf);
    UpdateRel(a.nodes, b.nodes, fin.nodes, t, false, true, v, w);
  }

  lemma FollowString(text: string, a: State, b: State, fin: State, x: Action, s: State)
    requires Shape(text, a) && InStep(a, b, fin) && Ended(fin) && TopOf(a) == Top(KString)
    requires x.Quote? && Sound(text, a.c, TopOf(a), x) && Apply(text, true, a, x) == More(s) && Grows(s, fin)
    ensures var o := Apply(text, false, b, x); o.More? && InStep(s, o.st, fin)
  {
    var t := a.top;
    var a', b' := a.(c := x.c), b.(c := x.c);
    assert NodeRel(a.nodes[t], b.nodes[t], fin.nodes[t]) && NamesOk(a.nodes, b.nodes[t], t, false, t);
    var v, w := WithString(a', a.nodes[t]), WithString(b', b.nodes[t]);
    var u, u' := a'.(nodes := a.nodes[t := v]), b'.(nodes := b.nodes[t := w]);
    UpdateArena(a.nodes, t, v);
    CompleteGood(text, u, More(s));
    GrowsTrans(u, s, fin);
    assert GrowsAt(u, fin, t);
    assert Room(b', 1);
    UpdateRel(a.nodes, b.nodes, fin.nodes, t, false, false, v, w);
    FollowComplete(text, u, u', fin, s);
  }

  lemma FollowOpen(text: string, a: State, b: State, fin: State, x: Action, s: State)
    requires Shape(text, a) && InStep(a, b, fin) && Ended(fin)
    requires x.Open? && Sound(text, a.c, TopOf(a), x) && Apply(text, true, a, x) == More(s) && Grows(s, fin)
    ensures var o := Apply(text, false, b, x); o.More? && InStep(s, o.st, fin)
  {
    FollowNew(a, b, fin, x.kind, s);
    var o := Apply(text, false, b, x);
    PendRel(s.nodes, o.st.nodes, fin.nodes, s.top, false, s.c.seek);
  }

  /** `new_value` in both passes: the value the second takes up is the one the first appended here. */
  lemma FollowNew(a: State, b: State, fin: State, kind: Kind, s: State)
    requires Arena(a.nodes) && a.alloc == |a.nodes| == b.alloc && NodesRel(a.nodes, b.nodes, fin.nodes, a.top, true)
    requires if a.nodes == [] then a.top == -1 else TopOk(a)
    requires s.nodes == a.nodes + [Fresh(kind, a.top)] && Grows(s, fin)
    ensures b.alloc < |b.nodes| && SameKind(kind, b.nodes[b.alloc].kind)
    ensures NodesRel(s.nodes, b.nodes[b.alloc := Emptied(b.nodes[b.alloc])], fin.nodes, |a.nodes|, false)
  {
    assert GrowsAt(s, fin, |a.nodes|);
    NewRel(a.nodes, b.nodes, fin.nodes, a.top, kind);
  }

  lemma FollowLeaf(text: string, a: State, b: State, fin: State, x: Action, s: State)
    requires Shape(text, a) && InStep(a, b, fin) && Ended(fin)
    requires x.Leaf? && Sound(text, a.c, TopOf(a), x) && Apply(text, true, a, x) == More(s) && Grows(s, fin)
    ensures var o := Apply(text, false, b, x); o.More? && InStep(s, o.st, fin)
  {
    var u := NewValue(true, a.(c := x.c), x.kind).st;
    NewValueGood(a.(c := x.c), x.kind, u);
    CompleteGood(text, u, More(s));
    GrowsTrans(u, s, fin);
    FollowNew(a, b, fin, x.kind, u);
    var u' := NewValue(false, b.(c := x.c), x.kind).st;
    FollowComplete(text, u, u', fin, s);
  }

  lemma FollowClose(text: string, a: State, b: State, fin: State, x: Action, s: State)
    requires Shape(text, a) && InStep(a, b, fin) && Ended(fin)
    requires x.Close? && Sound(text, a.c, TopOf(a), x) && Apply(text, true, a, x) == More(s) && Grows(s, fin)
    ensures var o := Apply(text, false, b, x); o.More? && InStep(s, o.st, fin)
  {
    assert NodeRel(a.nodes[a.top], b.nodes[a.top], fin.nodes[a.top]);
    PendRel(a.nodes, b.nodes, fin.nodes, a.top, a.c.seek, false);
    FollowComplete(text, a.(c := x.c), b.(c := x.c), fin, s);
  }

  lemma CompleteLeaves(u: State, s: State)
    requires Arena(u.nodes) && TopOk(u) && Complete(true, u) == More(s)
    ensures !InNumberMode(s)
  {
    assert Rooted(u.nodes, u.top);
  }

  lemma LeavesNumbers(text: string, a: State, s: State)
    requires Shape(text, a) && !InNumberMode(a) && Step(text, true, a) == More(s) && !Next(text, a).Number?
    ensures !InNumberMode(s)
  {
    var x := Next(text, a);
    DecideSound(text, a.c, a.num, TopOf(a), a.strLen > UINT_LIMIT);
    match x {
      case Quote(c) =>
        if TopOf(a) == Top(KString) {
          var u := a.(c := c);
          UpdateArena(a.nodes, a.top, WithString(u, a.nodes[a.top]));
          CompleteLeaves(u.(nodes := a.nodes[a.top := WithString(u, a.nodes[a.top])]), s);
        }
      case Leaf(c, kind) =>
        var u := NewValue(true, a.(c := c), kind).st;
        NewValueGood(a.(c := c), kind, u);
        CompleteLeaves(u, s);
      case Close(c) => CompleteLeaves(a.(c := c), s);
      case Open(c, kind) =>
      case Idle(_) =>
      case Key(_) =>
      case Put(_, _, _) =>
      case Digit(_, _, _, _) =>
    }
  }

  /** Outside numbers the passes take the same turn. */
  lemma FollowStep(text: string, a: State, b: State, fin: State, s: State)
    requires Shape(text, a) && InStep(a, b, fin) && Ended(fin) && !InNumberMode(a)
    requires Step(text, true, a) == More(s) && Grows(s, fin) && Promises(s, fin) && !Next(text, a).Number?
    ensures var o := Step(text, false, b); o.More? && InStep(s, o.st, fin)
    ensures !InNumberMode(s)
  {
    LeavesNumbers(text, a, s);
    var x := Next(text, a);
    SameAction(text, a, b, fin);
    DecideSound(text, a.c, a.num, TopOf(a), a.strLen > UINT_LIMIT);
    match x {
      case Idle(_) => FollowMove(text, a, b, fin, x, s);
      case Key(_) => FollowMove(text, a, b, fin, x, s);
      case Put(_, _, _) => FollowPut(text, a, b, fin, x, s);
      case Quote(_) =>
        if TopOf(a) == Top(KObject) {
          FollowKey(text, a, b, fin, x, s);
        } else {
          FollowString(text, a, b, fin, x, s);
        }
      case Open(_, _) => FollowOpen(text, a, b, fin, x, s);
      case Leaf(_, _) => FollowLeaf(text, a, b, fin, x, s);
      case Close(_) => FollowClose(text, a, b, fin, x, s);
    }
  }

  // ----- numbers: the greedy skip stops where the automaton stopped -----

  /** After a number the first pass accepts no character that the skip would have run over. */
  lemma AfterNumber(text: string, u: State, s: State, n: nat)
    requires Arena(u.nodes) && InNumberMode(u) && Complete(true, u) == More(s) && InNumber(At(text, s.c.i))
    ensures Step(text, true, s) == Rejected && !Run(text, true, s, n).Done?
  {
    assert Rooted(u.nodes, u.top);
    if n > 0 {
      RunStep(text, true, s, n, Rejected);
    }
  }

  /** v with the kind and value of w. */
  function WithNumber(v: Node, w: Node): Node {
    v.(kind := w.kind, number := w.number)
  }

  /** In number mode at i, with only number characters up to k: the automaton closes exactly at k. */
  lemma {:induction false} NumberRun(text: string, a: State, n: nat, fin: State, k: int) returns (m: nat, u: State)
    requires Shape(text, a) && InNumberMode(a) && Run(text, true, a, n) == Done(fin)
    requires a.c.i <= k <= |text| && !InNumber(At(text, k))
    requires forall j :: a.c.i <= j < k ==> InNumber(At(text, j))
    ensures 0 < m <= n && Run(text, true, u, m) == Done(fin)
    ensures Shape(text, u) && InNumberMode(u) && u.c == a.c.(i := k) && Next(text, u) == Close(u.c)
    ensures |u.nodes| == |a.nodes|
    ensures u == a.(c := u.c, num := u.num, nodes := a.nodes[a.top := WithNumber(a.nodes[a.top], u.nodes[a.top])])
    decreases n
  {
    var x, o := Next(text, a), Step(text, true, a);
    FirstPassStep(text, a);
    DecideSound(text, a.c, a.num, TopOf(a), a.strLen > UINT_LIMIT);
    if x.Close? {
      m, u := n, a;
      RunStep(text, true, a, n, o);
      if a.c.i < k && o.More? {
        AfterNumber(text, a, o.st, n - 1);
      }
    } else {
      assert x.Digit?;
      RunStep(text, true, a, n, o);
      m, u := NumberRun(text, o.st, n - 1, fin, k);
    }
  }

  /** The first pass's turns over a whole number: enter, run the automaton to k, complete. */
  lemma NumberTurns(text: string, a: State, fin: State, n: nat, x: Action, k: int)
    returns (m: nat, a1: State, u: State, s: State)
    requires Shape(text, a) && Run(text, true, a, n) == Done(fin) && n > 0
    requires x == Next(text, a) && x.Number? && Sound(text, a.c, TopOf(a), x) && k == SkipNumber(text, a.c.i)
    ensures m < n && Run(text, true, s, m) == Done(fin) && Shape(text, s) && Grows(s, fin)
    ensures Shape(text, u) && InNumberMode(u) && u.c == x.c.(i := k) && Grows(u, fin) && Complete(true, u) == More(s)
    ensures a1.nodes == a.nodes + [Fresh(KInteger, a.top)] && a1.top == |a.nodes| && Arena(a1.nodes)
    ensures |u.nodes| == |a1.nodes| && u.top == a1.top && u.alloc == a.alloc + 1 && u.strLen == a.strLen
    ensures u.nodes == a1.nodes[a1.top := WithNumber(a1.nodes[a1.top], u.nodes[a1.top])]
  {
    FirstPassStep(text, a);
    var o := Step(text, true, a);
    RunStep(text, true, a, n, o);
    a1 := o.st;
    NumberEntry(text, a, x, a1, k);
    m, u := NumberRun(text, a1, n - 1, fin, k);
    FirstPassRun(text, u, m, fin);
    FirstPassStep(text, u);
    var p := Step(text, true, u);
    RunStep(text, true, u, m, p);
    s, m := p.st, m - 1;
    FirstPassRun(text, s, m, fin);
  }

  /** A whole number: several turns of the first pass, one of the second. */
  lemma FollowNumber(text: string, a: State, b: State, fin: State, n: nat, x: Action) returns (m: nat, s: State)
    requires Shape(text, a) && InStep(a, b, fin) && Ended(fin)
    requires Run(text, true, a, n) == Done(fin) && n > 0
    requires x == Next(text, a) && x.Number? && Sound(text, a.c, TopOf(a), x)
    ensures m < n && Run(text, true, s, m) == Done(fin) && Shape(text, s) && !InNumberMode(s)
    ensures var o := Apply(text, false, b, x); o.More? && InStep(s, o.st, fin)
  {
    var k := SkipNumber(text, a.c.i);
    var a1, u;
    m, a1, u, s := NumberTurns(text, a, fin, n, x, k);
    CompleteLeaves(u, s);
    NumberValue(a, b, fin, x, a1, u);
    var w := NewValue(false, b.(c := x.c), KInteger).st;
    assert Apply(text, false, b, x) == Complete(false, w.(c := u.c));
    FollowComplete(text, u, w.(c := u.c), fin, s);
  }

  /** The first pass enters number mode on the new value, at or just after the first character. */
  lemma NumberEntry(text: string, a: State, x: Action, a1: State, k: int)
    requires Shape(text, a) && x.Number? && Sound(text, a.c, TopOf(a), x) && Apply(text, true, a, x) == More(a1)
    requires k == SkipNumber(text, a.c.i)
    ensures InNumberMode(a1) && a1.c.i <= k && a1.c == x.c.(i := a1.c.i) && a.c.i <= a1.c.i
    ensures a1.nodes == a.nodes + [Fresh(KInteger, a.top)] && a1.top == |a.nodes|
    ensures a1.alloc == a.alloc + 1 && a1.strLen == a.strLen
  {
  }

  lemma NumberValue(a: State, b: State, fin: State, x: Action, a1: State, u: State)
    requires Arena(a.nodes) && a.alloc == |a.nodes| == b.alloc && NodesRel(a.nodes, b.nodes, fin.nodes, a.top, true)
    requires if a.nodes == [] then a.top == -1 else TopOk(a)
    requires x.Number? && a1.nodes == a.nodes + [Fresh(KInteger, a.top)] && a1.top == |a.nodes| && Arena(a1.nodes)
    requires |u.nodes| == |a1.nodes| && u.top == a1.top
    requires Grows(u, fin) && !u.c.inString && Numeric(u.nodes[u.top].kind)
    requires u.nodes == a1.nodes[a1.top := WithNumber(a1.nodes[a1.top], u.nodes[a1.top])]
    ensures NewValue(false, b.(c := x.c), KInteger).More?
    ensures NodesRel(u.nodes, NewValue(false, b.(c := x.c), KInteger).st.nodes, fin.nodes, u.top, false)
  {
    var t := a1.top;
    assert GrowsAt(u, fin, t);
    NewRel(a.nodes, b.nodes, fin.nodes, a.top, KInteger);
    var w := NewValue(false, b.(c := x.c), KInteger).st.nodes;
    assert NodeRel(a1.nodes[t], w[t], fin.nodes[t]) && NamesOk(a1.nodes, w[t], t, false, t);
    UpdateRel(a1.nodes, w, fin.nodes, t, false, false, u.nodes[t], w[t]);
    assert w == w[t := w[t]];
  }

  // ----- the whole second pass -----

  /** One turn of the second pass, and the one or more turns of the first that it replays. */
  lemma ReplayTurn(text: string, a: State, b: State, fin: State, n: nat) returns (m: nat, s: State)
    requires Shape(text, a) && InStep(a, b, fin) && Ended(fin) && !InNumberMode(a)
    requires Run(text, true, a, n) == Done(fin) && n > 0 && Step(text, true, a).More?
    ensures m < n && Run(text, true, s, m) == Done(fin) && Shape(text, s) && !InNumberMode(s)
    ensures var o := Step(text, false, b); o.More? && InStep(s, o.st, fin)
  {
    var x := Next(text, a);
    DecideSound(text, a.c, a.num, TopOf(a), a.strLen > UINT_LIMIT);
    SameAction(text, a, b, fin);
    if x.Number? {
      m, s := FollowNumber(text, a, b, fin, n, x);
    } else {
      FirstPassStep(text, a);
      var o := Step(text, true, a);
      RunStep(text, true, a, n, o);
      m, s := n - 1, o.st;
      FirstPassRun(text, s, m, fin);
      FollowStep(text, a, b, fin, s);
    }
  }

  lemma {:induction false} Replay(text: string, a: State, b: State, fin: State, n: nat) returns (m: nat, out: State)
    requires Shape(text, a) && InStep(a, b, fin) && Ended(fin) && !InNumberMode(a)
    requires Run(text, true, a, n) == Done(fin)
    ensures m <= n && Run(text, false, b, m) == Done(out) && InStep(fin, out, fin)
    decreases n
  {
    var o := Step(text, true, a);
    RunStep(text, true, a, n, o);
    if o.More? {
      var k, s := ReplayTurn(text, a, b, fin, n);
      var p := Step(text, false, b);
      m, out := Replay(text, s, p.st, fin, k);
      m := m + 1;
      RunStep(text, false, b, m, p);
    } else {
      FirstPassStep(text, a);
      SameAction(text, a, b, fin);
      m, out := 1, b;
      RunStep(text, false, b, 1, Done(b));
    }
  }

  /** b holds exactly what f counted: kinds, tree, and every allocation full. */
  predicate FilledExactly(f: seq<Node>, b: seq<Node>) {
    |b| == |f| && forall j :: 0 <= j < |f| ==> Filled(f, b, j)
  }

  predicate Filled(f: seq<Node>, b: seq<Node>, j: nat)
    requires j < |f| == |b|
  {
    && b[j].kind == f[j].kind && b[j].parent == f[j].parent
    && (b[j].kind == KString ==> |b[j].chars| == b[j].length == b[j].cap == f[j].length)
    && (Container(b[j].kind) ==> |b[j].kids| == b[j].length == b[j].cap == f[j].length && KidsOk(f, b[j].kids, j))
    && (forall c :: 0 < c < |f| && f[c].parent == j ==> c in b[j].kids)
    && (b[j].kind == KObject ==>
          |b[j].names| == f[j].length && Packed(b[j].names) == b[j].keyBytes == b[j].keyCap == f[j].keyBytes)
  }

  lemma InStepFilled(fin: State, out: State)
    requires Ended(fin) && fin.nodes != [] && InStep(fin, out, fin)
    ensures FilledExactly(fin.nodes, out.nodes)
  {
    assert Rooted(fin.nodes, 0);
    forall j | 0 <= j < |fin.nodes|
      ensures Filled(fin.nodes, out.nodes, j)
    {
      assert NodeRel(fin.nodes[j], out.nodes[j], fin.nodes[j]);
      assert NamesOk(fin.nodes, out.nodes[j], 0, false, j);
      assert KidsOk(fin.nodes, out.nodes[j].kids, j);
      forall c | 0 < c < |fin.nodes| && fin.nodes[c].parent == j
        ensures c in out.nodes[j].kids
      {
        if OnPath(fin.nodes, 0, c) {
          OnPathBelow(fin.nodes, 0, c);
        }
      }
    }
  }

  /**
   On any text the first pass accepts, the second pass runs to its end without failing or
   crashing, takes up every recorded value, and fills each one exactly.
   */
  lemma SecondPassExact(text: string, n: nat, fin: State) returns (m: nat, out: State)
    requires Run(text, true, START, n) == Done(fin)
    ensures m <= n && Run(text, false, Restart(fin.nodes), m) == Done(out)
    ensures out.alloc == |fin.nodes| && FilledExactly(fin.nodes, out.nodes)
  {
    FirstPassRun(text, START, n, fin);
    m, out := Replay(text, START, Restart(fin.nodes), fin, n);
    InStepFilled(fin, out);
  }
}

/**
 Whole values as the two passes take them. The first records every value of a written text in
 order, with its kind, its parent and an integer's value; the second fills the recorded values
 with exactly the strings, names and children that are written.
 */
module JsonValues {
  import opened Options
  import opened JsonMachine
  import opened JsonText
  import opened JsonRuns
  import opened JsonNumbers

  // ----- parts of an arena -----

  predicate Same(n: seq<Node>, m: seq<Node>, from: nat, to: nat) {
    to <= |n| && to <= |m| && forall j :: from <= j < to ==> n[j] == m[j]
  }

  /** Value `at` and the ones in it are recorded, one after the other, as the first pass counts them. */
  predicate Recorded(nodes: seq<Node>, at: nat, parent: int, d: Doc)
    decreases d
  {
    && at + Size(d) <= |nodes| && nodes[at].kind == KindOf(d) && nodes[at].parent == parent
    && (d.Number? && Whole(d.n) ==> nodes[at].number == IntegerValue(d.n))
    && (d.List? ==> RecordedItems(nodes, at + 1, at, d.items))
    && (d.Object? ==> RecordedMembers(nodes, at + 1, at, d.members))
  }

  predicate RecordedItems(nodes: seq<Node>, at: nat, parent: int, items: Items)
    decreases items
  {
    && at + ItemsSize(items) <= |nodes|
    && (items.Item? ==>
          && Recorded(nodes, at, parent, items.value)
          && RecordedItems(nodes, at + Size(items.value), parent, items.rest))
  }

  predicate RecordedMembers(nodes: seq<Node>, at: nat, parent: int, members: Members)
    decreases members
  {
    && at + MembersSize(members) <= |nodes|
    && (members.Member? ==>
          && Recorded(nodes, at, parent, members.value)
          && RecordedMembers(nodes, at + Size(members.value), parent, members.rest))
  }

  lemma {:induction false} RecordedSame(n: seq<Node>, m: seq<Node>, at: nat, parent: int, d: Doc)
    requires Recorded(n, at, parent, d) && Same(n, m, at, at + Size(d))
    ensures Recorded(m, at, parent, d)
    decreases d
  {
    if d.List? {
      RecordedItemsSame(n, m, at + 1, at, d.items);
    } else if d.Object? {
      RecordedMembersSame(n, m, at + 1, at, d.members);
    }
  }

  lemma {:induction false} RecordedItemsSame(n: seq<Node>, m: seq<Node>, at: nat, parent: int, items: Items)
    requires RecordedItems(n, at, parent, items) && Same(n, m, at, at + ItemsSize(items))
    ensures RecordedItems(m, at, parent, items)
    decreases items
  {
    if items.Item? {
      assert Same(n, m, at, at + Size(items.value)) && Same(n, m, at + Size(items.value), at + ItemsSize(items));
      RecordedSame(n, m, at, parent, items.value);
      RecordedItemsSame(n, m, at + Size(items.value), parent, items.rest);
    }
  }

  lemma {:induction false} RecordedMembersSame(n: seq<Node>, m: seq<Node>, at: nat, parent: int, members: Members)
    requires RecordedMembers(n, at, parent, members) && Same(n, m, at, at + MembersSize(members))
    ensures RecordedMembers(m, at, parent, members)
    decreases members
  {
    if members.Member? {
      assert Same(n, m, at, at + Size(members.value)) && Same(n, m, at + Size(members.value),
                                                              at + MembersSize(members));
      RecordedSame(n, m, at, parent, members.value);
      RecordedMembersSame(n, m, at + Size(members.value), parent, members.rest);
    }
  }

  lemma {:induction false} HoldsSame(n: seq<Node>, m: seq<Node>, at: nat, d: Doc)
    requires Holds(n, at, d) && Same(n, m, at, at + Size(d))
    ensures Holds(m, at, d)
    decreases d
  {
    if d.List? {
      HoldsItemsSame(n, m, n[at].kids, 0, at + 1, d.items);
    } else if d.Object? {
      HoldsMembersSame(n, m, n[at].kids, n[at].names, 0, at + 1, d.members);
    }
  }

  lemma {:induction false} HoldsItemsSame(n: seq<Node>, m: seq<Node>, kids: seq<int>, k: nat, at: nat, items: Items)
    requires HoldsItems(n, kids, k, at, items) && Same(n, m, at, at + ItemsSize(items))
    ensures HoldsItems(m, kids, k, at, items)
    decreases items
  {
    if items.Item? {
      assert Same(n, m, at, at + Size(items.value)) && Same(n, m, at + Size(items.value), at + ItemsSize(items));
      HoldsSame(n, m, at, items.value);
      HoldsItemsSame(n, m, kids, k + 1, at + Size(items.value), items.rest);
    }
  }

  lemma {:induction false} HoldsMembersSame(n: seq<Node>, m: seq<Node>, kids: seq<int>, names: seq<string>, k: nat,
                                            at: nat, members: Members)
    requires HoldsMembers(n, kids, names, k, at, members)
    requires Same(n, m, at, at + MembersSize(members))
    ensures HoldsMembers(m, kids, names, k, at, members)
    decreases members
  {
    if members.Member? {
      assert Same(n, m, at, at + Size(members.value)) && Same(n, m, at + Size(members.value),
                                                              at + MembersSize(members));
      HoldsSame(n, m, at, members.value);
      HoldsMembersSame(n, m, kids, names, k + 1, at + Size(members.value), members.rest);
    }
  }

  // ----- values without children -----

  /** The node that a value begins with. */
  function Begun(first: bool, st: State, kind: Kind): Node
    requires first || st.alloc < |st.nodes|
  {
    if first then Fresh(kind, st.top) else Emptied(st.nodes[st.alloc])
  }

  /** The state with that node taken up, n characters on. */
  function Begin(first: bool, st: State, kind: Kind, n: nat): State
    requires first || st.alloc < |st.nodes|
  {
    var v := Begun(first, st, kind);
    st.(c := st.c.(i := st.c.i + n, seek := false), alloc := st.alloc + 1,
        top := if first then |st.nodes| else st.alloc,
        nodes := Taking(first, st.nodes, st.alloc, v))
  }

  predicate Facing(text: string, first: bool, st: State) {
    Expecting(st) && if first then st.alloc == |st.nodes| else st.alloc < |st.nodes|
  }

  lemma RunLiteral(text: string, first: bool, st: State, t: string, kind: Kind)
    requires Ready(text, first, st) && Facing(text, first, st) && AtText(text, st.c.i, t)
    requires (t == "true" && kind == KBoolean(true)) || (t == "false" && kind == KBoolean(false)) ||
             (t == "null" && kind == KNull)
    ensures Leads(text, first, st, Complete(first, Begin(first, st, kind, |t|)))
  {
    forall k | 0 <= k < |t|
      ensures At(text, st.c.i + k) == t[k] && st.c.i + k < |text|
    {
      AtIndex(text, st.c.i, t, k);
    }
    assert Next(text, st) == Leaf(st.c.(i := st.c.i + |t|, seek := false), kind) by {
      assert At(text, st.c.i + 0) == t[0];
      assert st.c.i + (|t| - 1) < |text|;
      LiteralFollows(text, st.c.i, t);
    }
    OneTurn(text, first, st);
  }

  lemma LiteralFollows(text: string, i: int, t: string)
    requires t != "" && AtText(text, i, t)
    ensures Follows(text, i, t[1..], |t| - 1)
  {
    forall k | 0 <= k < |t[1..]|
      ensures At(text, i + 1 + k) == t[1..][k]
    {
      AtIndex(text, i, t, k + 1);
    }
  }

  /** A string: its value is begun, its pieces are read, and its bytes stored. */
  lemma RunText(text: string, first: bool, st: State, ps: seq<Piece>) returns (u: State)
    requires Ready(text, first, st) && Facing(text, first, st) && StringOk(ps)
    requires AtText(text, st.c.i, Quoted(ps))
    requires !first ==> st.nodes[st.alloc].kind == KString
    ensures Leads(text, first, st, Complete(first, u))
    ensures u.c == st.c.(i := st.c.i + |Written(ps)| + 2, seek := false)
    ensures u.top == st.alloc && u.alloc == st.alloc + 1
    ensures var v := Begun(first, st, KString).(length := |Meant(ps)|, chars := if first then "" else Meant(ps));
            u.nodes == Taking(first, st.nodes, st.alloc, v)
  {
    QuotedParts(text, st.c.i, ps);
    var b := OpenText(text, first, st);
    var s := RunQuoted(text, first, st, b, ps);
    u := CloseText(text, first, s);
    LeadsOn(text, first, st, s, Complete(first, u));
    assert "" + Meant(ps) == Meant(ps);
    TakenLater(first, st.nodes, st.alloc, Begun(first, st, KString), WithString(s, s.nodes[s.top]));
  }

  /** What is between the quotes. */
  lemma RunQuoted(text: string, first: bool, st: State, b: State, ps: seq<Piece>) returns (s: State)
    requires Leads(text, first, st, More(b)) && Ready(text, first, b) && b.c.inString && !b.c.escaped && b.strLen == 0
    requires StringOk(ps) && AtText(text, b.c.i, Written(ps))
    ensures s == Said(first, b, |Written(ps)|, Meant(ps)) && Reading(s)
    ensures Leads(text, first, st, More(s)) && Ready(text, first, s)
  {
    s := RunPieces(text, first, b, ps);
    LeadsOn(text, first, st, b, More(s));
  }

  /** The arena with the value v taken up next. */
  function Taking(first: bool, nodes: seq<Node>, at: nat, v: Node): seq<Node>
    requires first || at < |nodes|
  {
    if first then nodes + [v] else nodes[at := v]
  }

  lemma TakenLater(first: bool, nodes: seq<Node>, at: nat, v: Node, w: Node)
    requires if first then at == |nodes| else at < |nodes|
    ensures Taking(first, nodes, at, v)[at] == v && Taking(first, nodes, at, v)[at := w] == Taking(first, nodes, at, w)
  {
  }

  lemma QuotedParts(text: string, i: int, ps: seq<Piece>)
    requires AtText(text, i, Quoted(ps))
    ensures AtText(text, i, "\"") && AtText(text, i + 1, Written(ps)) && AtText(text, i + 1 + |Written(ps)|, "\"")
  {
    AtSplit(text, i, "\"" + Written(ps), "\"");
    AtSplit(text, i, "\"", Written(ps));
  }

  lemma OpenText(text: string, first: bool, st: State) returns (b: State)
    requires Ready(text, first, st) && Facing(text, first, st) && AtText(text, st.c.i, "\"")
    ensures b == Begin(first, st, KString, 1).(strLen := 0, buf := "", c := b.c)
    ensures b.c == st.c.(i := st.c.i + 1, seek := false, inString := true)
    ensures Leads(text, first, st, More(b)) && Ready(text, first, b)
  {
    AtIndex(text, st.c.i, "\"", 0);
    b := Begin(first, st, KString, 1).(strLen := 0, buf := "",
                                       c := st.c.(i := st.c.i + 1, seek := false, inString := true));
    Go(text, first, st, More(b));
  }

  lemma CloseText(text: string, first: bool, s: State) returns (u: State)
    requires Ready(text, first, s) && Reading(s) && AtText(text, s.c.i, "\"") && TopOf(s) == Top(KString)
    ensures Leads(text, first, s, Complete(first, u))
    ensures u == s.(c := s.c.(i := s.c.i + 1, inString := false),
                    nodes := s.nodes[s.top := WithString(s, s.nodes[s.top])])
  {
    AtIndex(text, s.c.i, "\"", 0);
    u := s.(c := s.c.(i := s.c.i + 1, inString := false), nodes := s.nodes[s.top := WithString(s, s.nodes[s.top])]);
    assert Next(text, s) == Quote(s.c.(i := s.c.i + 1, inString := false));
    OneTurn(text, first, s);
    Comes(text, first, s, Step(text, first, s));
  }

  // ----- what a pass does with a value -----

  /** A value stands here: in the second pass, one that the first has recorded. */
  ghost predicate Ahead(text: string, first: bool, st: State, d: Doc) {
    && Ready(text, first, st) && Facing(text, first, st) && DocOk(d)
    && AtText(text, st.c.i, DocText(d)) && (d.Number? ==> !InNumber(At(text, st.c.i + |DocText(d)|)))
    && (!first ==> Recorded(st.nodes, st.alloc, st.top, d))
  }

  /** The arena m with value `at` recorded or filled in it, where n is the arena before. */
  ghost predicate Added(first: bool, n: seq<Node>, m: seq<Node>, at: nat, parent: int, d: Doc) {
    && at <= |n| && at + Size(d) <= |m| && Same(n, m, 0, at) && m[at].parent == parent
    && if first then |m| == at + Size(d) && Recorded(m, at, parent, d)
       else |m| == |n| && Same(n, m, at + Size(d), |m|) && Holds(m, at, d)
  }

  /** u is where the value that stands at st is complete. */
  ghost predicate Took(first: bool, st: State, u: State, d: Doc) {
    && u.c == st.c.(i := st.c.i + |DocText(d)|, seek := false)
    && u.top == st.alloc && u.alloc == st.alloc + Size(d)
    && Added(first, st.nodes, u.nodes, st.alloc, st.top, d)
  }

  lemma TakeLiteral(text: string, first: bool, st: State, d: Doc) returns (u: State)
    requires Ahead(text, first, st, d) && (d.Null? || d.Bool?)
    ensures Leads(text, first, st, Complete(first, u)) && Took(first, st, u, d)
  {
    RunLiteral(text, first, st, DocText(d), KindOf(d));
    u := Begin(first, st, KindOf(d), |DocText(d)|);
  }

  lemma TakeNumber(text: string, first: bool, st: State, d: Doc) returns (u: State)
    requires Ahead(text, first, st, d) && d.Number?
    ensures Leads(text, first, st, Complete(first, u)) && Took(first, st, u, d)
  {
    if first {
      u := CountNumber(text, st, d.n);
    } else {
      u := FillNumber(text, st, d.n);
    }
  }

  lemma TakeText(text: string, first: bool, st: State, d: Doc) returns (u: State)
    requires Ahead(text, first, st, d) && d.Text?
    ensures Leads(text, first, st, Complete(first, u)) && Took(first, st, u, d)
  {
    u := RunText(text, first, st, d.pieces);
    AddText(first, st, u.nodes, d);
  }

  lemma AddText(first: bool, st: State, m: seq<Node>, d: Doc)
    requires (if first then st.alloc == |st.nodes| else Recorded(st.nodes, st.alloc, st.top, d)) && d.Text?
    requires var v := Begun(first, st, KString).(length := |Meant(d.pieces)|,
                                                 chars := if first then "" else Meant(d.pieces));
             m == Taking(first, st.nodes, st.alloc, v)
    ensures Added(first, st.nodes, m, st.alloc, st.top, d)
  {
  }

  // ----- a child of a list or an object -----

  /** The arena m with one more child of p in it; w is the parent's node before it is counted. */
  ghost predicate Joined(first: bool, n: seq<Node>, m: seq<Node>, at: nat, p: nat, w: Node, d: Doc) {
    && p < at <= |n| && at + Size(d) <= |m|
    && Same(n, m, 0, p) && Same(n, m, p + 1, at) && m[p] == WithChild(first, w, at)
    && if first then |m| == at + Size(d) && Recorded(m, at, p, d)
       else |m| == |n| && Same(n, m, at + Size(d), |m|) && Holds(m, at, d)
  }

  predicate Parent(st: State, p: nat) {
    && p < st.alloc && p < |st.nodes| && st.top == p && st.nodes[p].length + 1 <= UINT_LIMIT
    && (st.nodes[p].kind == KArray || st.nodes[p].kind == KObject)
  }

  /** The completed value is its parent's next child. */
  lemma JoinValue(text: string, first: bool, st: State, u: State, p: nat, d: Doc) returns (v: State)
    requires Ready(text, first, st) && Leads(text, first, st, Complete(first, u)) && Took(first, st, u, d)
    requires Parent(st, p) && !st.c.inString && !st.c.done
    ensures Leads(text, first, st, More(v)) && Ready(text, first, v)
    ensures v.c == u.c.(needComma := true, seek := st.nodes[p].kind == KArray)
    ensures v.top == p && v.alloc == u.alloc && Joined(first, st.nodes, v.nodes, st.alloc, p, st.nodes[p], d)
  {
    Comes(text, first, st, Complete(first, u));
    v := Complete(first, u).st;
    JoinArena(first, st.nodes, u.nodes, st.alloc, p, d);
  }

  lemma JoinArena(first: bool, n: seq<Node>, m: seq<Node>, at: nat, p: nat, d: Doc)
    requires p < at && Added(first, n, m, at, p, d)
    ensures Joined(first, n, m[p := WithChild(first, m[p], at)], at, p, n[p], d)
  {
    var m' := m[p := WithChild(first, m[p], at)];
    assert Same(m, m', at, at + Size(d));
    if first {
      RecordedSame(m, m', at, p, d);
    } else {
      HoldsSame(m, m', at, d);
    }
  }
}

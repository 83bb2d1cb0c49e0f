/**
 Lists and objects as the two passes take them, and with them every written text: it is
 accepted, and what the second pass leaves holds exactly what is written.
 */
module JsonTrees {
  import opened Options
  import opened JsonMachine
  import opened JsonText
  import opened JsonRuns
  import opened JsonNumbers
  import opened JsonValues

  // ----- one child after the other -----

  /** A run of texts, cut at its seams. */
  lemma AtParts(text: string, i: int, a: string, b: string, c: string, d: string, e: string)
    requires AtText(text, i, a + b + c + d + e)
    ensures AtText(text, i, a) && AtText(text, i + |a|, b) && AtText(text, i + |a| + |b|, c)
    ensures AtText(text, i + |a| + |b| + |c|, d) && AtText(text, i + |a| + |b| + |c| + |d|, e)
  {
    AtSplit(text, i, a + b + c + d, e);
    AtSplit(text, i, a + b + c, d);
    AtSplit(text, i, a + b, c);
    AtSplit(text, i, a, b);
  }

  /** A number in a collection ends where it is written to end. */
  lemma NumberEnds(text: string, i: int, after: string, last: bool, rest: string)
    requires White(after) && AtText(text, i, after) && AtText(text, i + |after|, Separator(last))
    requires AtText(text, i + |after| + |Separator(last)|, rest) && rest != ""
    requires last ==> rest[0] == ']' || rest[0] == '}'
    ensures !InNumber(At(text, i))
  {
    if after != "" {
      AtIndex(text, i, after, 0);
    } else if last {
      AtIndex(text, i, rest, 0);
    } else {
      AtIndex(text, i, ",", 0);
    }
  }

  /** A child stands at i, between what goes before it and the rest of the collection. */
  predicate Parts(text: string, i: int, before: string, value: string, after: string, last: bool, rest: string) {
    && AtText(text, i, before) && AtText(text, i + |before|, value) && !InNumber(At(text, i + |before| + |value|))
    && AtText(text, i + |before| + |value|, after)
    && AtText(text, i + |before| + |value| + |after|, Separator(last))
    && AtText(text, i + |before| + |value| + |after| + |Separator(last)|, rest)
  }

  lemma PartsValue(text: string, i: int, j: int, before: string, value: string, after: string, last: bool, rest: string)
    requires Parts(text, i, before, value, after, last, rest) && j == i + |before|
    ensures AtText(text, j, value) && !InNumber(At(text, j + |value|))
  {
  }

  lemma CutParts(text: string, i: int, before: string, value: string, after: string, last: bool, rest: string)
    requires White(after) && AtText(text, i, before + value + after + Separator(last) + rest) && rest != ""
    requires last ==> rest[0] == ']' || rest[0] == '}'
    ensures Parts(text, i, before, value, after, last, rest)
  {
    AtParts(text, i, before, value, after, Separator(last), rest);
    NumberEnds(text, i + |before| + |value|, after, last, rest);
  }

  /** Only white space is left before the closing bracket. */
  lemma NoMore(text: string, first: bool, st: State, gap: string, close: string) returns (s: State)
    requires Ready(text, first, st) && BetweenTokens(st) && White(gap) && AtText(text, st.c.i, gap + close)
    ensures s == Moved(st, |gap|) && Leads(text, first, st, More(s)) && Ready(text, first, s)
  {
    AtSplit(text, st.c.i, gap, close);
    SkipSpaces(text, first, st, gap);
    s := Moved(st, |gap|);
  }

  /** White space after a child, and the comma if another one comes. */
  lemma AfterValue(text: string, first: bool, v: State, after: string, last: bool) returns (w: State)
    requires AtText(text, v.c.i, after) && AtText(text, v.c.i + |after|, Separator(last))
    requires Ready(text, first, v) && BetweenTokens(v) && !v.c.done && v.c.needComma && White(after)
    ensures w == v.(c := v.c.(i := v.c.i + |after| + |Separator(last)|, needComma := last))
    ensures Leads(text, first, v, More(w)) && Ready(text, first, w)
  {
    SkipSpaces(text, first, v, after);
    w := Moved(v, |after|);
    if !last {
      var a := w;
      w := Comma(text, first, a);
      LeadsOn(text, first, v, a, More(w));
    }
  }

  lemma Comma(text: string, first: bool, a: State) returns (w: State)
    requires AtText(text, a.c.i, ",") && Ready(text, first, a) && BetweenTokens(a) && !a.c.done && a.c.needComma
    ensures w == a.(c := a.c.(i := a.c.i + 1, needComma := false))
    ensures Leads(text, first, a, More(w)) && Ready(text, first, w)
  {
    AtIndex(text, a.c.i, ",", 0);
    w := a.(c := a.c.(i := a.c.i + 1, needComma := false));
    Go(text, first, a, More(w));
  }

  lemma AfterChild(text: string, first: bool, c: Control, v: State, before: string, value: string, after: string,
                   last: bool, rest: string) returns (w: State)
    requires Parts(text, c.i, before, value, after, last, rest) && White(after)
    requires v.c == c.(i := c.i + |before| + |value|, needComma := true)
    requires Ready(text, first, v) && BetweenTokens(v) && !v.c.done
    ensures w.c == c.(i := c.i + |before| + |value| + |after| + |Separator(last)|, needComma := last)
    ensures Leads(text, first, v, More(w)) && Ready(text, first, w) && w == v.(c := w.c) && AtText(text, w.c.i, rest)
  {
    w := AfterValue(text, first, v, after, last);
  }

  // ----- lists -----

  /** The items that are still to come in list p stand here. */
  ghost predicate AtItems(text: string, first: bool, st: State, p: nat, items: Items) {
    && Ready(text, first, st) && Expecting(st.(c := st.c.(needComma := false))) && (items.Item? ==> !st.c.needComma)
    && ItemsOk(items) && AtText(text, st.c.i, ItemsText(items) + "]")
    && st.top == p && ItemsFit(first, st.nodes, st.alloc, p, items)
  }

  predicate ItemsFit(first: bool, n: seq<Node>, at: nat, p: nat, items: Items) {
    && p < at <= |n| && n[p].kind == KArray && n[p].length + ItemCount(items) <= UINT_LIMIT
    && if first then at == |n| else |n[p].kids| == n[p].length && RecordedItems(n, at, p, items)
  }

  /** The arena m with these items in list p. */
  ghost predicate JoinedItems(first: bool, n: seq<Node>, m: seq<Node>, at: nat, p: nat, items: Items) {
    && p < at <= |n| && at + ItemsSize(items) <= |m| && Same(n, m, 0, p) && Same(n, m, p + 1, at)
    && m[p] == n[p].(length := n[p].length + ItemCount(items), kids := m[p].kids)
    && if first then |m| == at + ItemsSize(items) && RecordedItems(m, at, p, items)
       else && |m| == |n| && Same(n, m, at + ItemsSize(items), |m|)
            && n[p].kids <= m[p].kids && |m[p].kids| == |n[p].kids| + ItemCount(items)
            && HoldsItems(m, m[p].kids, |n[p].kids|, at, items)
  }

  lemma JoinItems(first: bool, n: seq<Node>, v: seq<Node>, m: seq<Node>, at: nat, next: nat, p: nat, items: Items)
    requires items.Item? && p < at <= |n| && next == at + Size(items.value)
    requires Joined(first, n, v, at, p, n[p], items.value) && JoinedItems(first, v, m, next, p, items.rest)
    ensures JoinedItems(first, n, m, at, p, items)
  {
    assert Same(v, m, at, next);
    if first {
      RecordedSame(v, m, at, p, items.value);
    } else {
      HoldsSame(v, m, at, items.value);
      assert m[p].kids[|n[p].kids|] == v[p].kids[|n[p].kids|] == at;
    }
  }

  lemma ItemParts(text: string, i: int, items: Items)
    requires ItemsOk(items) && items.Item? && AtText(text, i, ItemsText(items) + "]")
    ensures Parts(text, i, items.before, DocText(items.value), items.after, items.rest.NoItems?,
                  ItemsText(items.rest) + "]")
    ensures |ItemsText(items)| == |items.before| + |DocText(items.value)| + |items.after| +
                                  |Separator(items.rest.NoItems?)| + |ItemsText(items.rest)|
  {
    var last, rest := items.rest.NoItems?, ItemsText(items.rest) + "]";
    assert ItemsText(items) + "]" == items.before + DocText(items.value) + items.after + Separator(last) + rest;
    CutParts(text, i, items.before, DocText(items.value), items.after, last, rest);
  }

  lemma BeforeItem(text: string, first: bool, st: State, p: nat, items: Items) returns (b: State)
    requires AtItems(text, first, st, p, items) && items.Item?
    ensures b == Moved(st, |items.before|) && Leads(text, first, st, More(b)) && Ahead(text, first, b, items.value)
    ensures Parent(b, p)
  {
    ItemParts(text, st.c.i, items);
    SkipSpaces(text, first, st, items.before);
    b := Moved(st, |items.before|);
  }

  /** From an item that is complete to the rest of the list. */
  lemma PassItem(text: string, first: bool, st: State, b: State, u: State, p: nat, items: Items) returns (w: State)
    requires AtItems(text, first, st, p, items) && items.Item?
    requires b == Moved(st, |items.before|) && Leads(text, first, st, More(b)) && Ready(text, first, b)
    requires Leads(text, first, b, Complete(first, u)) && Took(first, b, u, items.value)
    ensures Leads(text, first, st, More(w)) && Ready(text, first, w)
    ensures w.c == st.c.(i := st.c.i + |ItemsText(items)| - |ItemsText(items.rest)|, needComma := items.rest.NoItems?)
    ensures AtText(text, w.c.i, ItemsText(items.rest) + "]")
    ensures w.top == p && w.alloc == st.alloc + Size(items.value)
    ensures Joined(first, st.nodes, w.nodes, st.alloc, p, st.nodes[p], items.value)
  {
    var v := JoinValue(text, first, b, u, p, items.value);
    LeadsOn(text, first, st, b, More(v));
    ItemParts(text, st.c.i, items);
    w := AfterChild(text, first, st.c, v, items.before, DocText(items.value), items.after, items.rest.NoItems?,
                    ItemsText(items.rest) + "]");
    LeadsOn(text, first, st, v, More(w));
  }

  lemma RecordedAfter(n: seq<Node>, m: seq<Node>, at: nat, next: nat, p: nat, k: Node, items: Items)
    requires items.Item? && next == at + Size(items.value)
    requires RecordedItems(n, at, p, items) && Joined(false, n, m, at, p, k, items.value)
    ensures RecordedItems(m, next, p, items.rest)
  {
    RecordedItemsSame(n, m, next, p, items.rest);
  }

  lemma RestOfItems(text: string, first: bool, st: State, w: State, p: nat, items: Items)
    requires AtItems(text, first, st, p, items) && items.Item? && Ready(text, first, w)
    requires w.c == st.c.(i := w.c.i, needComma := items.rest.NoItems?)
    requires AtText(text, w.c.i, ItemsText(items.rest) + "]")
    requires w.top == p && w.alloc == st.alloc + Size(items.value)
    requires Joined(first, st.nodes, w.nodes, st.alloc, p, st.nodes[p], items.value)
    ensures AtItems(text, first, w, p, items.rest)
  {
    if !first {
      RecordedAfter(st.nodes, w.nodes, st.alloc, w.alloc, p, st.nodes[p], items);
    }
  }

  lemma {:induction false} RunItems(text: string, first: bool, st: State, p: nat, items: Items) returns (s: State)
    requires AtItems(text, first, st, p, items)
    ensures Leads(text, first, st, More(s)) && Ready(text, first, s)
    ensures s.c == st.c.(i := st.c.i + |ItemsText(items)|, needComma := s.c.needComma)
    ensures s.top == p && s.alloc == st.alloc + ItemsSize(items)
    ensures JoinedItems(first, st.nodes, s.nodes, st.alloc, p, items)
    decreases items, 1
  {
    if !items.Item? {
      s := NoMore(text, first, st, if items.NoItems? then "" else items.gap, "]");
    } else {
      var b := BeforeItem(text, first, st, p, items);
      var u := RunValue(text, first, b, items.value);
      var w := PassItem(text, first, st, b, u, p, items);
      RestOfItems(text, first, st, w, p, items);
      s := RunItems(text, first, w, p, items.rest);
      LeadsOn(text, first, st, w, More(s));
      JoinItems(first, st.nodes, w.nodes, s.nodes, st.alloc, w.alloc, p, items);
    }
  }

  /** The bracket or brace that opens a collection; a list is then seeking its first item. */
  lemma OpenCollection(text: string, first: bool, st: State, kind: Kind) returns (f: State)
    requires Ready(text, first, st) && Facing(text, first, st)
    requires (kind == KArray && AtText(text, st.c.i, "[")) || (kind == KObject && AtText(text, st.c.i, "{"))
    requires !first ==> st.nodes[st.alloc].kind == kind
    ensures Leads(text, first, st, More(f)) && Ready(text, first, f)
    ensures f.c == st.c.(i := st.c.i + 1, seek := kind == KArray)
    ensures f.top == st.alloc && f.alloc == st.alloc + 1
    ensures f.nodes == Taking(first, st.nodes, st.alloc, Begun(first, st, kind))
  {
    AtIndex(text, st.c.i, if kind == KArray then "[" else "{", 0);
    f := Begin(first, st, kind, 1).(c := st.c.(i := st.c.i + 1, seek := kind == KArray), strLen := 0, buf := "");
    Go(text, first, st, More(f));
  }

  lemma RecordedInside(n: seq<Node>, m: seq<Node>, at: nat, parent: int, d: Doc)
    requires Recorded(n, at, parent, d) && |m| == |n| && m == n[at := m[at]]
    ensures d.List? ==> RecordedItems(m, at + 1, at, d.items)
    ensures d.Object? ==> RecordedMembers(m, at + 1, at, d.members)
  {
    if d.List? {
      RecordedItemsSame(n, m, at + 1, at, d.items);
    } else if d.Object? {
      RecordedMembersSame(n, m, at + 1, at, d.members);
    }
  }

  lemma OpenList(text: string, first: bool, st: State, d: Doc) returns (f: State)
    requires Ahead(text, first, st, d) && d.List?
    ensures Leads(text, first, st, More(f)) && Ready(text, first, f)
    ensures AtText(text, f.c.i, ItemsText(d.items) + "]")
    ensures f.c == st.c.(i := st.c.i + 1) && f.top == st.alloc && f.alloc == st.alloc + 1
    ensures f.nodes == Taking(first, st.nodes, st.alloc, Begun(first, st, KArray))
  {
    AtSplit(text, st.c.i, "[", ItemsText(d.items) + "]");
    f := OpenCollection(text, first, st, KArray);
    AtSame(text, st.c.i + |"["|, f.c.i, ItemsText(d.items) + "]");
  }

  lemma ListStarts(text: string, first: bool, st: State, f: State, d: Doc)
    requires Facing(text, first, st) && (!first ==> Recorded(st.nodes, st.alloc, st.top, d))
    requires DocOk(d) && d.List? && Ready(text, first, f)
    requires AtText(text, f.c.i, ItemsText(d.items) + "]")
    requires f.c == st.c.(i := f.c.i, seek := true) && f.top == st.alloc && f.alloc == st.alloc + 1
    requires f.nodes == Taking(first, st.nodes, st.alloc, Begun(first, st, KArray))
    ensures AtItems(text, first, f, st.alloc, d.items)
  {
    ListFits(first, st, f.nodes, d);
  }

  lemma ListFits(first: bool, st: State, m: seq<Node>, d: Doc)
    requires if first then st.alloc == |st.nodes| else Recorded(st.nodes, st.alloc, st.top, d)
    requires d.List? && ItemCount(d.items) <= UINT_LIMIT
    requires m == Taking(first, st.nodes, st.alloc, Begun(first, st, KArray))
    ensures ItemsFit(first, m, st.alloc + 1, st.alloc, d.items)
  {
    if !first {
      RecordedInside(st.nodes, m, st.alloc, st.top, d);
    }
  }

  lemma CloseList(text: string, first: bool, s: State) returns (u: State)
    requires Ready(text, first, s) && s.c.seek && !s.c.inString && !s.c.done && TopOf(s) == Top(KArray)
    requires At(text, s.c.i) == ']'
    ensures Leads(text, first, s, Complete(first, u))
    ensures u == s.(c := s.c.(i := s.c.i + 1, needComma := false, seek := false))
  {
    u := s.(c := s.c.(i := s.c.i + 1, needComma := false, seek := false));
    OneTurn(text, first, s);
  }

  lemma AddList(first: bool, st: State, m: seq<Node>, d: Doc)
    requires d.List? && if first then st.alloc == |st.nodes| else Recorded(st.nodes, st.alloc, st.top, d)
    requires JoinedItems(first, Taking(first, st.nodes, st.alloc, Begun(first, st, KArray)), m, st.alloc + 1, st.alloc,
                         d.items)
    ensures Added(first, st.nodes, m, st.alloc, st.top, d)
  {
  }

  lemma {:induction false} TakeList(text: string, first: bool, st: State, d: Doc) returns (u: State)
    requires Ahead(text, first, st, d) && d.List?
    ensures Leads(text, first, st, Complete(first, u)) && Took(first, st, u, d)
    decreases d, 0
  {
    var f := OpenList(text, first, st, d);
    ListStarts(text, first, st, f, d);
    var s := RunItems(text, first, f, st.alloc, d.items);
    LeadsOn(text, first, st, f, More(s));
    AtSplit(text, f.c.i, ItemsText(d.items), "]");
    AtIndex(text, s.c.i, "]", 0);
    u := CloseList(text, first, s);
    LeadsOn(text, first, st, s, Complete(first, u));
    AddList(first, st, u.nodes, d);
  }

  // ----- objects -----

  /** The members that are still to come in object p stand here. */
  ghost predicate AtMembers(text: string, first: bool, st: State, p: nat, members: Members) {
    && Ready(text, first, st) && Expecting(st.(c := st.c.(needComma := false, seek := true))) && !st.c.seek
    && (members.Member? ==> !st.c.needComma)
    && MembersOk(members) && AtText(text, st.c.i, MembersText(members) + "}")
    && st.top == p && MembersFit(first, st.nodes, st.alloc, p, members)
  }

  predicate MembersFit(first: bool, n: seq<Node>, at: nat, p: nat, members: Members) {
    && p < at <= |n| && n[p].kind == KObject && n[p].length + MemberCount(members) <= UINT_LIMIT
    && if first then at == |n|
       else |n[p].kids| == |n[p].names| == n[p].length && RecordedMembers(n, at, p, members)
  }

  /** The arena m with these members in object p. */
  ghost predicate JoinedMembers(first: bool, n: seq<Node>, m: seq<Node>, at: nat, p: nat, members: Members) {
    && p < at <= |n| && at + MembersSize(members) <= |m| && Same(n, m, 0, p) && Same(n, m, p + 1, at)
    && m[p] == n[p].(length := n[p].length + MemberCount(members), kids := m[p].kids, names := m[p].names,
                     keyBytes := m[p].keyBytes)
    && if first then |m| == at + MembersSize(members) && RecordedMembers(m, at, p, members)
       else && |m| == |n| && Same(n, m, at + MembersSize(members), |m|)
            && n[p].kids <= m[p].kids && |m[p].kids| == |n[p].kids| + MemberCount(members)
            && n[p].names <= m[p].names && |m[p].names| == |n[p].names| + MemberCount(members)
            && HoldsMembers(m, m[p].kids, m[p].names, |n[p].kids|, at, members)
  }

  /** w is p's node with this name noted. */
  ghost predicate Named(first: bool, v: Node, w: Node, name: seq<Piece>) {
    && w == v.(keyBytes := w.keyBytes, names := w.names)
    && (!first && |v.names| == v.length ==> w.names == v.names + [Meant(name)])
  }

  lemma JoinMembers(first: bool, n: seq<Node>, w: Node, v: seq<Node>, m: seq<Node>, at: nat, next: nat, p: nat,
                    members: Members)
    requires members.Member? && p < at <= |n| && next == at + Size(members.value)
    requires Named(first, n[p], w, members.name) && (!first ==> |n[p].names| == n[p].length == |n[p].kids|)
    requires Joined(first, n, v, at, p, w, members.value) && JoinedMembers(first, v, m, next, p, members.rest)
    ensures JoinedMembers(first, n, m, at, p, members)
  {
    assert Same(v, m, at, next);
    if first {
      RecordedSame(v, m, at, p, members.value);
    } else {
      HoldsSame(v, m, at, members.value);
      var k := |n[p].kids|;
      assert m[p].kids[k] == v[p].kids[k] == at;
      assert m[p].names[k] == v[p].names[k] == Meant(members.name);
    }
  }

  function HeadingOf(members: Members): string
    requires members.Member?
  {
    Heading(members.before, members.name, members.gap1, members.gap2)
  }

  lemma MemberParts(text: string, i: int, members: Members)
    requires MembersOk(members) && members.Member? && AtText(text, i, MembersText(members) + "}")
    ensures Parts(text, i, HeadingOf(members), DocText(members.value), members.after, members.rest.NoMembers?,
                  MembersText(members.rest) + "}")
    ensures |MembersText(members)| == |HeadingOf(members)| + |DocText(members.value)| + |members.after| +
                                      |Separator(members.rest.NoMembers?)| + |MembersText(members.rest)|
  {
    var last, rest := members.rest.NoMembers?, MembersText(members.rest) + "}";
    assert MembersText(members) + "}" ==
           HeadingOf(members) + DocText(members.value) + members.after + Separator(last) + rest;
    CutParts(text, i, HeadingOf(members), DocText(members.value), members.after, last, rest);
  }

  /** A name: its pieces are read and its bytes noted. */
  lemma RunName(text: string, first: bool, st: State, ps: seq<Piece>) returns (s: State)
    requires Ready(text, first, st) && TopOf(st) == Top(KObject) && StringOk(ps)
    requires !st.c.seek && !st.c.needComma && !st.c.inString && !st.c.escaped && !st.c.done
    requires AtText(text, st.c.i, Quoted(ps))
    ensures Leads(text, first, st, More(s)) && Ready(text, first, s)
    ensures s.c == st.c.(i := st.c.i + |Written(ps)| + 2, seek := true, needColon := true)
    ensures s.top == st.top && s.alloc == st.alloc && |s.nodes| == |st.nodes|
    ensures s.nodes == st.nodes[st.top := s.nodes[st.top]] && Named(first, st.nodes[st.top], s.nodes[st.top], ps)
  {
    QuotedParts(text, st.c.i, ps);
    var b := OpenName(text, first, st);
    var k := RunQuoted(text, first, st, b, ps);
    assert "" + Meant(ps) == Meant(ps);
    s := CloseName(text, first, k);
    LeadsOn(text, first, st, k, More(s));
  }

  lemma OpenName(text: string, first: bool, st: State) returns (b: State)
    requires Ready(text, first, st) && TopOf(st) == Top(KObject) && AtText(text, st.c.i, "\"")
    requires !st.c.seek && !st.c.needComma && !st.c.inString && !st.c.done
    ensures b == st.(c := st.c.(i := st.c.i + 1, inString := true), strLen := 0, buf := "")
    ensures Leads(text, first, st, More(b)) && Ready(text, first, b)
  {
    AtIndex(text, st.c.i, "\"", 0);
    b := st.(c := st.c.(i := st.c.i + 1, inString := true), strLen := 0, buf := "");
    Go(text, first, st, More(b));
  }

  lemma CloseName(text: string, first: bool, k: State) returns (s: State)
    requires Ready(text, first, k) && Reading(k) && AtText(text, k.c.i, "\"") && TopOf(k) == Top(KObject)
    ensures Leads(text, first, k, More(s)) && Ready(text, first, s)
    ensures s == k.(c := k.c.(i := k.c.i + 1, inString := false, seek := true, needColon := true),
                    nodes := k.nodes[k.top := WithKey(first, k, k.nodes[k.top])])
  {
    AtIndex(text, k.c.i, "\"", 0);
    assert Next(text, k) == Quote(k.c.(i := k.c.i + 1, inString := false));
    Go(text, first, k, Step(text, first, k));
    s := Step(text, first, k).st;
  }

  /** The colon and the white space around it. */
  lemma RunColon(text: string, first: bool, st: State, gap1: string, gap2: string) returns (s: State)
    requires Ready(text, first, st) && st.c.seek && st.c.needColon && !st.c.needComma && !st.c.inString && !st.c.done
    requires White(gap1) && White(gap2)
    requires AtText(text, st.c.i, gap1) && AtText(text, st.c.i + |gap1|, ":") && AtText(text, st.c.i + |gap1| + 1, gap2)
    ensures s == st.(c := st.c.(i := st.c.i + |gap1| + 1 + |gap2|, needColon := false))
    ensures Leads(text, first, st, More(s)) && Ready(text, first, s)
  {
    SkipSpaces(text, first, st, gap1);
    var a := Moved(st, |gap1|);
    AtIndex(text, a.c.i, ":", 0);
    var b := a.(c := a.c.(i := a.c.i + 1, needColon := false));
    Go(text, first, a, More(b));
    SkipSpaces(text, first, b, gap2);
    s := Moved(b, |gap2|);
    LeadsOn(text, first, a, b, More(s));
    LeadsOn(text, first, st, a, More(s));
  }

  /** From before a member to its value. */
  lemma RunHeading(text: string, first: bool, st: State, members: Members) returns (b: State)
    requires Ready(text, first, st) && TopOf(st) == Top(KObject) && MembersOk(members) && members.Member?
    requires !st.c.seek && !st.c.needComma && !st.c.needColon && !st.c.inString && !st.c.escaped && !st.c.done
    requires AtText(text, st.c.i, HeadingOf(members))
    ensures Leads(text, first, st, More(b)) && Ready(text, first, b)
    ensures b.c == st.c.(i := st.c.i + |HeadingOf(members)|, seek := true)
    ensures b.top == st.top && b.alloc == st.alloc && |b.nodes| == |st.nodes|
    ensures b.nodes == st.nodes[st.top := b.nodes[st.top]]
    ensures Named(first, st.nodes[st.top], b.nodes[st.top], members.name)
  {
    AtParts(text, st.c.i, members.before, Quoted(members.name), members.gap1, ":", members.gap2);
    SkipSpaces(text, first, st, members.before);
    var a := Moved(st, |members.before|);
    var s := RunName(text, first, a, members.name);
    LeadsOn(text, first, st, a, More(s));
    b := RunColon(text, first, s, members.gap1, members.gap2);
    LeadsOn(text, first, st, s, More(b));
  }

  lemma RecordedNext(n: seq<Node>, m: seq<Node>, at: nat, p: nat, members: Members)
    requires members.Member? && RecordedMembers(n, at, p, members) && p < at && |m| == |n| && m == n[p := m[p]]
    ensures Recorded(m, at, p, members.value)
  {
    RecordedSame(n, m, at, p, members.value);
  }

  lemma BeforeMember(text: string, first: bool, st: State, p: nat, members: Members) returns (b: State)
    requires AtMembers(text, first, st, p, members) && members.Member?
    ensures Leads(text, first, st, More(b)) && Ready(text, first, b)
    ensures b.c == st.c.(i := st.c.i + |HeadingOf(members)|, seek := true) && b.top == p && b.alloc == st.alloc
    ensures |b.nodes| == |st.nodes| && b.nodes == st.nodes[p := b.nodes[p]]
    ensures Named(first, st.nodes[p], b.nodes[p], members.name)
  {
    MemberParts(text, st.c.i, members);
    b := RunHeading(text, first, st, members);
  }

  /** Its value stands there. */
  lemma AtMember(text: string, first: bool, st: State, b: State, p: nat, members: Members)
    requires AtMembers(text, first, st, p, members) && members.Member? && Ready(text, first, b)
    requires b.c == st.c.(i := st.c.i + |HeadingOf(members)|, seek := true) && b.top == p && b.alloc == st.alloc
    requires |b.nodes| == |st.nodes| && b.nodes == st.nodes[p := b.nodes[p]]
    requires b.nodes[p].kind == KObject && b.nodes[p].length == st.nodes[p].length
    ensures Ahead(text, first, b, members.value) && Parent(b, p)
  {
    MemberParts(text, st.c.i, members);
    PartsValue(text, st.c.i, b.c.i, HeadingOf(members), DocText(members.value), members.after, members.rest.NoMembers?,
               MembersText(members.rest) + "}");
    if !first {
      RecordedNext(st.nodes, b.nodes, st.alloc, p, members);
    }
  }

  /** From a member that is complete to the rest of the object. */
  lemma PassMember(text: string, first: bool, st: State, b: State, u: State, p: nat, members: Members)
    returns (w: State)
    requires AtMembers(text, first, st, p, members) && members.Member? && Leads(text, first, st, More(b))
    requires b.c == st.c.(i := st.c.i + |HeadingOf(members)|, seek := true) && b.alloc == st.alloc
    requires Ready(text, first, b) && Parent(b, p) && b.nodes[p].kind == KObject
    requires Leads(text, first, b, Complete(first, u)) && Took(first, b, u, members.value)
    ensures Leads(text, first, st, More(w)) && Ready(text, first, w)
    ensures w.c == st.c.(i := st.c.i + |MembersText(members)| - |MembersText(members.rest)|,
                         needComma := members.rest.NoMembers?)
    ensures AtText(text, w.c.i, MembersText(members.rest) + "}")
    ensures w.top == p && w.alloc == st.alloc + Size(members.value)
    ensures Joined(first, b.nodes, w.nodes, st.alloc, p, b.nodes[p], members.value)
  {
    var v := JoinValue(text, first, b, u, p, members.value);
    LeadsOn(text, first, st, b, More(v));
    MemberParts(text, st.c.i, members);
    w := AfterChild(text, first, st.c.(seek := false), v, HeadingOf(members), DocText(members.value), members.after,
                    members.rest.NoMembers?, MembersText(members.rest) + "}");
    LeadsOn(text, first, st, v, More(w));
  }

  /** The arena with p's node named, and so the child joined to the arena before. */
  lemma JoinNamed(first: bool, n: seq<Node>, b: seq<Node>, v: seq<Node>, at: nat, p: nat, d: Doc)
    requires p < at <= |n| == |b| && b == n[p := b[p]] && Joined(first, b, v, at, p, b[p], d)
    ensures Joined(first, n, v, at, p, b[p], d)
  {
  }

  lemma RecordedRest(n: seq<Node>, m: seq<Node>, at: nat, next: nat, p: nat, k: Node, members: Members)
    requires members.Member? && next == at + Size(members.value)
    requires RecordedMembers(n, at, p, members) && Joined(false, n, m, at, p, k, members.value)
    ensures RecordedMembers(m, next, p, members.rest)
  {
    RecordedMembersSame(n, m, next, p, members.rest);
  }

  lemma RestOfMembers(text: string, first: bool, st: State, w: State, k: Node, p: nat, members: Members)
    requires AtMembers(text, first, st, p, members) && members.Member? && Ready(text, first, w)
    requires w.c == st.c.(i := w.c.i, needComma := members.rest.NoMembers?)
    requires AtText(text, w.c.i, MembersText(members.rest) + "}")
    requires w.top == p && w.alloc == st.alloc + Size(members.value)
    requires Named(first, st.nodes[p], k, members.name)
    requires Joined(first, st.nodes, w.nodes, st.alloc, p, k, members.value)
    ensures AtMembers(text, first, w, p, members.rest)
  {
    if !first {
      RecordedRest(st.nodes, w.nodes, st.alloc, w.alloc, p, k, members);
    }
  }

  lemma {:induction false} RunMembers(text: string, first: bool, st: State, p: nat, members: Members) returns (s: State)
    requires AtMembers(text, first, st, p, members)
    ensures Leads(text, first, st, More(s)) && Ready(text, first, s)
    ensures s.c == st.c.(i := st.c.i + |MembersText(members)|, needComma := s.c.needComma)
    ensures s.top == p && s.alloc == st.alloc + MembersSize(members)
    ensures JoinedMembers(first, st.nodes, s.nodes, st.alloc, p, members)
    decreases members, 1
  {
    if !members.Member? {
      s := NoMore(text, first, st, if members.NoMembers? then "" else members.gap, "}");
    } else {
      var b := BeforeMember(text, first, st, p, members);
      AtMember(text, first, st, b, p, members);
      var u := RunValue(text, first, b, members.value);
      var w := PassMember(text, first, st, b, u, p, members);
      JoinNamed(first, st.nodes, b.nodes, w.nodes, st.alloc, p, members.value);
      RestOfMembers(text, first, st, w, b.nodes[p], p, members);
      s := RunMembers(text, first, w, p, members.rest);
      LeadsOn(text, first, st, w, More(s));
      JoinMembers(first, st.nodes, b.nodes[p], w.nodes, s.nodes, st.alloc, w.alloc, p, members);
    }
  }

  lemma OpenObject(text: string, first: bool, st: State, d: Doc) returns (f: State)
    requires Ahead(text, first, st, d) && d.Object?
    ensures Leads(text, first, st, More(f)) && Ready(text, first, f)
    ensures AtText(text, f.c.i, MembersText(d.members) + "}")
    ensures f.c == st.c.(i := st.c.i + 1, seek := false) && f.top == st.alloc && f.alloc == st.alloc + 1
    ensures f.nodes == Taking(first, st.nodes, st.alloc, Begun(first, st, KObject))
  {
    AtSplit(text, st.c.i, "{", MembersText(d.members) + "}");
    f := OpenCollection(text, first, st, KObject);
    AtSame(text, st.c.i + |"{"|, f.c.i, MembersText(d.members) + "}");
  }

  lemma ObjectStarts(text: string, first: bool, st: State, f: State, d: Doc)
    requires Facing(text, first, st) && (!first ==> Recorded(st.nodes, st.alloc, st.top, d))
    requires DocOk(d) && d.Object? && Ready(text, first, f)
    requires AtText(text, f.c.i, MembersText(d.members) + "}")
    requires f.c == st.c.(i := f.c.i, seek := false) && f.top == st.alloc && f.alloc == st.alloc + 1
    requires f.nodes == Taking(first, st.nodes, st.alloc, Begun(first, st, KObject))
    ensures AtMembers(text, first, f, st.alloc, d.members)
  {
    ObjectFits(first, st, f.nodes, d);
  }

  lemma ObjectFits(first: bool, st: State, m: seq<Node>, d: Doc)
    requires if first then st.alloc == |st.nodes| else Recorded(st.nodes, st.alloc, st.top, d)
    requires d.Object? && MemberCount(d.members) <= UINT_LIMIT
    requires m == Taking(first, st.nodes, st.alloc, Begun(first, st, KObject))
    ensures MembersFit(first, m, st.alloc + 1, st.alloc, d.members)
  {
    if !first {
      RecordedInside(st.nodes, m, st.alloc, st.top, d);
    }
  }

  lemma CloseObject(text: string, first: bool, s: State) returns (u: State)
    requires Ready(text, first, s) && !s.c.seek && !s.c.inString && !s.c.done && TopOf(s) == Top(KObject)
    requires At(text, s.c.i) == '}'
    ensures Leads(text, first, s, Complete(first, u))
    ensures u == s.(c := s.c.(i := s.c.i + 1, needComma := false))
  {
    u := s.(c := s.c.(i := s.c.i + 1, needComma := false));
    OneTurn(text, first, s);
  }

  lemma AddObject(first: bool, st: State, m: seq<Node>, d: Doc)
    requires d.Object? && if first then st.alloc == |st.nodes| else Recorded(st.nodes, st.alloc, st.top, d)
    requires JoinedMembers(first, Taking(first, st.nodes, st.alloc, Begun(first, st, KObject)), m, st.alloc + 1,
                           st.alloc,
                           d.members)
    ensures Added(first, st.nodes, m, st.alloc, st.top, d)
  {
  }

  lemma {:induction false} TakeObject(text: string, first: bool, st: State, d: Doc) returns (u: State)
    requires Ahead(text, first, st, d) && d.Object?
    ensures Leads(text, first, st, Complete(first, u)) && Took(first, st, u, d)
    decreases d, 0
  {
    var f := OpenObject(text, first, st, d);
    ObjectStarts(text, first, st, f, d);
    var s := RunMembers(text, first, f, st.alloc, d.members);
    LeadsOn(text, first, st, f, More(s));
    AtSplit(text, f.c.i, MembersText(d.members), "}");
    AtIndex(text, s.c.i, "}", 0);
    u := CloseObject(text, first, s);
    LeadsOn(text, first, st, s, Complete(first, u));
    AddObject(first, st, u.nodes, d);
  }

  // ----- every value -----

  /** A pass takes every written value. */
  lemma {:induction false} RunValue(text: string, first: bool, st: State, d: Doc) returns (u: State)
    requires Ahead(text, first, st, d)
    ensures Leads(text, first, st, Complete(first, u)) && Took(first, st, u, d)
    decreases d, 1
  {
    match d {
      case Null => u := TakeLiteral(text, first, st, d);
      case Bool(_) => u := TakeLiteral(text, first, st, d);
      case Number(_) => u := TakeNumber(text, first, st, d);
      case Text(_) => u := TakeText(text, first, st, d);
      case List(_) => u := TakeList(text, first, st, d);
      case Object(_) => u := TakeObject(text, first, st, d);
    }
  }

  // ----- a whole text -----

  /**
   The text is this value as it may be written, with white space around it and then the end or a
   NUL, at which the parser stops as it does at the end.
   */
  ghost predicate Writes(text: string, gap1: string, d: Doc, gap2: string, rest: string) {
    && DocOk(d) && White(gap1) && White(gap2) && (rest != "" ==> rest[0] == '\0')
    && text == gap1 + DocText(d) + gap2 + rest
  }

  /** Where a pass starts: on no values, or on the recorded ones. */
  ghost predicate Starts(text: string, first: bool, st: State, d: Doc) {
    && st == Restart(st.nodes) && Ready(text, first, st)
    && if first then st.nodes == [] else Recorded(st.nodes, 0, -1, d)
  }

  lemma WritesParts(text: string, gap1: string, d: Doc, gap2: string, rest: string)
    requires Writes(text, gap1, d, gap2, rest)
    ensures AtText(text, 0, gap1) && AtText(text, |gap1|, DocText(d)) && AtText(text, |gap1| + |DocText(d)|, gap2)
    ensures !InNumber(At(text, |gap1| + |DocText(d)|)) && At(text, |gap1| + |DocText(d)| + |gap2|) == '\0'
  {
    AtSelf(text);
    AtSplit(text, 0, gap1 + DocText(d) + gap2, rest);
    if rest != "" {
      AtIndex(text, |gap1| + |DocText(d)| + |gap2|, rest, 0);
    }
    AtSplit(text, 0, gap1 + DocText(d), gap2);
    AtSplit(text, 0, gap1, DocText(d));
    if gap2 != "" {
      AtIndex(text, |gap1| + |DocText(d)|, gap2, 0);
    }
  }

  lemma AtSelf(text: string)
    ensures AtText(text, 0, text)
  {
    forall k | 0 <= k < |text|
      ensures Stands(text, 0, text, k)
    {
    }
  }

  lemma EndText(text: string, first: bool, s: State)
    requires s.c.done && !s.c.inString && At(text, s.c.i) == '\0'
    ensures Leads(text, first, s, Done(s))
  {
    OneTurn(text, first, s);
  }

  /** The root is complete, and nothing but white space may follow. */
  lemma AfterRoot(text: string, first: bool, st: State, u: State, gap2: string) returns (fin: State)
    requires Ready(text, first, st) && Leads(text, first, st, Complete(first, u)) && TopOk(u) && !u.c.inString
    requires u.nodes[u.top].parent == -1 && AtText(text, u.c.i, gap2) && White(gap2) && At(text, u.c.i + |gap2|) == '\0'
    ensures Leads(text, first, st, Done(fin)) && fin.nodes == u.nodes
  {
    Comes(text, first, st, Complete(first, u));
    var v := u.(c := u.c.(needComma := true, done := true));
    SkipSpaces(text, first, v, gap2);
    fin := Moved(v, |gap2|);
    EndText(text, first, fin);
    LeadsOn(text, first, st, v, More(fin));
    LeadsOn(text, first, st, fin, Done(fin));
  }

  lemma RunAll(text: string, first: bool, st: State, gap1: string, d: Doc, gap2: string, rest: string)
    returns (fin: State)
    requires Writes(text, gap1, d, gap2, rest) && Starts(text, first, st, d)
    ensures Leads(text, first, st, Done(fin)) && Added(first, st.nodes, fin.nodes, 0, -1, d)
  {
    WritesParts(text, gap1, d, gap2, rest);
    SkipSpaces(text, first, st, gap1);
    var b := Moved(st, |gap1|);
    assert Ahead(text, first, b, d);
    var u := RunValue(text, first, b, d);
    LeadsOn(text, first, st, b, Complete(first, u));
    fin := AfterRoot(text, first, st, u, gap2);
  }

  /** Every text that writes a value is accepted, with all its values recorded. */
  lemma WrittenCounts(text: string, gap1: string, d: Doc, gap2: string, rest: string) returns (n: nat, fin: State)
    requires Writes(text, gap1, d, gap2, rest)
    ensures Run(text, true, START, n) == Done(fin) && |fin.nodes| == Size(d) && Recorded(fin.nodes, 0, -1, d)
  {
    assert START == Restart([]);
    fin := RunAll(text, true, START, gap1, d, gap2, rest);
    n := LeadsRun(text, true, START, Done(fin));
  }

  /** And where the second pass runs to its end, its values hold what is written. */
  lemma WrittenFills(text: string, gap1: string, d: Doc, gap2: string, rest: string, nodes: seq<Node>, m: nat,
                     out: State)
    requires Writes(text, gap1, d, gap2, rest) && Recorded(nodes, 0, -1, d)
    requires Run(text, false, Restart(nodes), m) == Done(out)
    ensures Holds(out.nodes, 0, d)
  {
    RunLeads(text, false, Restart(nodes), m);
    assert Starts(text, false, Restart(nodes), d);
    var fin := RunAll(text, false, Restart(nodes), gap1, d, gap2, rest);
    var k := LeadsRun(text, false, Restart(nodes), Done(fin));
    OneEnd(text, false, Restart(nodes), k, fin, m, out);
  }

  lemma OneEnd(text: string, first: bool, st: State, k: nat, a: State, m: nat, b: State)
    requires Run(text, first, st, k) == Done(a) && Run(text, first, st, m) == Done(b)
    ensures a == b
  {
    RunFrom(text, first, st, k, m);
    RunFrom(text, first, st, m, k);
    assert k + m == m + k;
  }
}

/**
 How far the character machine gets over a stretch of text: white space, the pieces of a
 string, names and literals. Every statement is about either pass; the second is taken where
 it is known to run to its end, as it is on every text that the first accepts.
 */
module JsonRuns {
  import opened Options
  import opened JsonMachine
  import opened JsonText

  // ----- getting from one state to another -----

  /** n more turns from an outcome. */
  function From(text: string, first: bool, o: Outcome, n: nat): Outcome {
    if o.More? then Run(text, first, o.st, n) else o
  }

  /** k turns from st on come to o, and any turns after that go on from there. */
  ghost predicate Takes(text: string, first: bool, st: State, k: nat, o: Outcome) {
    forall n: nat :: Run(text, first, st, k + n) == From(text, first, o, n)
  }

  /** Some number of turns from st on come to o. */
  ghost predicate Leads(text: string, first: bool, st: State, o: Outcome) {
    exists k: nat :: Takes(text, first, st, k, o)
  }

  /** The pass runs to its end from here. */
  ghost predicate Ends(text: string, first: bool, st: State) {
    exists fin :: Leads(text, first, st, Done(fin))
  }

  /** The second pass runs to its end from here. */
  ghost predicate Ready(text: string, first: bool, st: State) {
    first || Ends(text, false, st)
  }

  /** More turns after the end change nothing. */
  lemma {:induction false} IterateStable(f: State -> Outcome, st: State, n: nat, m: nat)
    requires n <= m && !Iterate(f, st, n).More?
    ensures Iterate(f, st, m) == Iterate(f, st, n)
    decreases n
  {
    if n > 0 && f(st).More? {
      IterateStable(f, f(st).st, n - 1, m - 1);
    }
  }

  lemma {:induction false} IterateJoin(f: State -> Outcome, st: State, n: nat, s: State, m: nat)
    requires Iterate(f, st, n) == More(s)
    ensures Iterate(f, st, n + m) == Iterate(f, s, m)
    decreases n
  {
    if n > 0 {
      IterateJoin(f, f(st).st, n - 1, s, m);
    }
  }

  lemma IterateFrom(f: State -> Outcome, st: State, k: nat, n: nat)
    ensures var o := Iterate(f, st, k);
            Iterate(f, st, k + n) == if o.More? then Iterate(f, o.st, n) else o
  {
    var o := Iterate(f, st, k);
    if o.More? {
      IterateJoin(f, st, k, o.st, n);
    } else {
      IterateStable(f, st, k, k + n);
    }
  }

  lemma RunFrom(text: string, first: bool, st: State, k: nat, n: nat)
    ensures Run(text, first, st, k + n) == From(text, first, Run(text, first, st, k), n)
  {
    IterateFrom(Turn(text, first), st, k, n);
  }

  lemma RunLeads(text: string, first: bool, st: State, k: nat)
    ensures Leads(text, first, st, Run(text, first, st, k))
  {
    var o := Run(text, first, st, k);
    forall n: nat
      ensures Run(text, first, st, k + n) == From(text, first, o, n)
    {
      RunFrom(text, first, st, k, n);
    }
    assert Takes(text, first, st, k, o);
  }

  lemma LeadsRun(text: string, first: bool, st: State, o: Outcome) returns (k: nat)
    requires Leads(text, first, st, o)
    ensures Run(text, first, st, k) == o
  {
    k :| Takes(text, first, st, k, o);
    assert Run(text, first, st, k + 0) == From(text, first, o, 0);
  }

  lemma LeadsOn(text: string, first: bool, a: State, b: State, o: Outcome)
    requires Leads(text, first, a, More(b)) && Leads(text, first, b, o)
    ensures Leads(text, first, a, o)
  {
    var n: nat :| Takes(text, first, a, n, More(b));
    var m: nat :| Takes(text, first, b, m, o);
    forall i: nat
      ensures Run(text, first, a, n + m + i) == From(text, first, o, i)
    {
      assert Run(text, first, a, n + (m + i)) == From(text, first, More(b), m + i);
      assert Run(text, first, b, m + i) == From(text, first, o, i);
    }
    assert Takes(text, first, a, n + m, o);
  }

  lemma Stay(text: string, first: bool, st: State)
    ensures Leads(text, first, st, More(st))
  {
    RunLeads(text, first, st, 0);
  }

  lemma OneTurn(text: string, first: bool, st: State)
    ensures Leads(text, first, st, Step(text, first, st))
  {
    var o := Step(text, first, st);
    RunStep(text, first, st, 1, o);
    RunLeads(text, first, st, 1);
  }

  /** Where a pass is known to end it neither fails nor crashes on the way. */
  lemma EndsOn(text: string, first: bool, st: State, o: Outcome)
    requires Ends(text, first, st) && Leads(text, first, st, o)
    ensures o.More? || o.Done?
    ensures o.More? ==> Ends(text, first, o.st)
  {
    var fin :| Leads(text, first, st, Done(fin));
    var n: nat :| Takes(text, first, st, n, o);
    var m: nat :| Takes(text, first, st, m, Done(fin));
    assert Run(text, first, st, n + m) == From(text, first, o, m);
    assert Run(text, first, st, m + n) == From(text, first, Done(fin), n);
    if o.More? {
      RunLeads(text, first, o.st, m);
    }
  }

  lemma Comes(text: string, first: bool, st: State, o: Outcome)
    requires Ready(text, first, st) && Leads(text, first, st, o)
    ensures !first ==> o.More? || o.Done?
    ensures o.More? ==> Ready(text, first, o.st)
  {
    if !first {
      EndsOn(text, false, st, o);
    }
  }

  /** One turn, which the first pass is known to take and the second has to. */
  lemma Go(text: string, first: bool, st: State, o: Outcome)
    requires Ready(text, first, st) && o == Step(text, first, st) && !o.Done? && (first ==> o.More?)
    ensures o.More? && Leads(text, first, st, o) && Ready(text, first, o.st)
  {
    OneTurn(text, first, st);
    Comes(text, first, st, o);
  }

  // ----- what stands in the text -----

  /** Character k of t stands k after position i. */
  predicate Stands(text: string, i: int, t: string, k: int) {
    0 <= k < |t| && At(text, i + k) == t[k]
  }

  /** t stands at position i of the text. */
  predicate AtText(text: string, i: int, t: string) {
    0 <= i && i + |t| <= |text| && forall k :: 0 <= k < |t| ==> Stands(text, i, t, k)
  }

  lemma AtSplit(text: string, i: int, a: string, b: string)
    requires AtText(text, i, a + b)
    ensures AtText(text, i, a) && AtText(text, i + |a|, b)
  {
    forall k | 0 <= k < |a|
      ensures Stands(text, i, a, k)
    {
      assert Stands(text, i, a + b, k);
    }
    var j := i + |a|;
    forall k | 0 <= k < |b|
      ensures Stands(text, j, b, k)
    {
      assert Stands(text, i, a + b, |a| + k);
    }
  }

  lemma AtSame(text: string, i: int, j: int, t: string)
    requires AtText(text, i, t) && i == j
    ensures AtText(text, j, t)
  {
  }

  lemma AtIndex(text: string, i: int, t: string, k: nat)
    requires AtText(text, i, t) && k < |t|
    ensures At(text, i + k) == t[k] && i + k < |text|
  {
    assert Stands(text, i, t, k);
  }

  // ----- white space -----

  function Moved(st: State, n: nat): State {
    st.(c := st.c.(i := st.c.i + n))
  }

  /** Between tokens: seeking a value, inside an object, or after the end. */
  predicate BetweenTokens(st: State) {
    !st.c.inString && (st.c.done || st.c.seek || TopOf(st) == Top(KObject))
  }

  lemma {:induction false} SkipSpaces(text: string, first: bool, st: State, w: string)
    requires Ready(text, first, st) && BetweenTokens(st) && White(w) && AtText(text, st.c.i, w)
    ensures Leads(text, first, st, More(Moved(st, |w|))) && Ready(text, first, Moved(st, |w|))
    decreases |w|
  {
    if w == "" {
      Stay(text, first, st);
      assert Moved(st, 0) == st;
    } else {
      AtIndex(text, st.c.i, w, 0);
      assert w == [w[0]] + w[1..];
      AtSplit(text, st.c.i, [w[0]], w[1..]);
      Go(text, first, st, More(Moved(st, 1)));
      SkipSpaces(text, first, Moved(st, 1), w[1..]);
      assert Moved(Moved(st, 1), |w| - 1) == Moved(st, |w|);
      LeadsOn(text, first, st, Moved(st, 1), More(Moved(st, |w|)));
    }
  }

  // ----- escapes -----

  lemma HexReads(c: char, n: nat)
    requires HexIs(c, n)
    ensures HexValue(c) == n
  {
  }

  lemma Hex4Reads(text: string, i: int, digits: string, n: nat)
    requires HexOf(digits, n) && AtText(text, i, digits)
    ensures Hex4(text, i) == n
  {
    AtIndex(text, i, digits, 0);
    AtIndex(text, i, digits, 1);
    AtIndex(text, i, digits, 2);
    AtIndex(text, i, digits, 3);
    var a, b, c, d := n / 4096, n / 256 % 16, n / 16 % 16, n % 16;
    HexReads(digits[0], a);
    HexReads(digits[1], b);
    HexReads(digits[2], c);
    HexReads(digits[3], d);
    Sixteens(n);
  }

  lemma Sixteens(n: nat)
    requires n < 65536
    ensures n == ((n / 4096 * 16 + n / 256 % 16) * 16 + n / 16 % 16) * 16 + n % 16
  {
  }

  /** A \u escape of a point outside the surrogates is read as it. */
  lemma PointReads(text: string, i: int, p: Piece)
    requires p.Point? && PieceOk(p) && AtText(text, i, Escape(p))
    ensures Unicode(text, i) == CodePoint(p.code, i + 4) && |Escape(p)| == 5 && Escape(p)[0] == 'u'
  {
    AtSplit(text, i, ['u'], p.digits);
    Hex4Reads(text, i + 1, p.digits, p.code);
  }

  /** Two \u escapes are read as the point of the pair, which bit 16 of its offset is missing from. */
  lemma PairReads(text: string, i: int, p: Piece)
    requires p.Pair? && PieceOk(p) && AtText(text, i, Escape(p))
    ensures Unicode(text, i) == CodePoint(PairRead(PairCode(p.u, p.u2)), i + 10)
    ensures |Escape(p)| == 11 && Escape(p)[0] == 'u' && PairRead(PairCode(p.u, p.u2)) < 0x100000
  {
    PairDigits(text, i, p.u, p.u2, p.high, p.low);
    PairSum(p.u, p.u2, p.u % 1024, p.u2 % 1024);
    PairInRange(PairCode(p.u, p.u2));
  }

  lemma PairDigits(text: string, i: int, u: nat, u2: nat, high: string, low: string)
    requires HexOf(high, u) && HexOf(low, u2) && AtText(text, i, ['u'] + high + ['\\', 'u'] + low)
    ensures Hex4(text, i + 1) == u && Hex4(text, i + 7) == u2
    ensures At(text, i + 5) == '\\' && At(text, i + 6) == 'u' && |text| - i >= 11
  {
    AtSplit(text, i, ['u'] + high + ['\\', 'u'], low);
    AtSplit(text, i, ['u'] + high, ['\\', 'u']);
    AtSplit(text, i, ['u'], high);
    AtIndex(text, i + 5, ['\\', 'u'], 0);
    AtIndex(text, i + 5, ['\\', 'u'], 1);
    Hex4Reads(text, i + 1, high, u);
    Hex4Reads(text, i + 7, low, u2);
  }

  lemma PairSum(u: nat, u2: nat, hi: nat, lo: nat)
    requires hi == u % 1024 && lo == u2 % 1024
    ensures SurrogatePair(u, u2) == PairRead(PairCode(u, u2))
  {
    var offset := hi * 1024 + lo;
    assert offset / 0x10000 == hi / 64;
  }

  // ----- strings -----

  /** n characters of text on, with these bytes added to the string being read. */
  function Said(first: bool, st: State, n: nat, bytes: string): State {
    st.(c := st.c.(i := st.c.i + n), strLen := st.strLen + |bytes|, buf := if first then st.buf else st.buf + bytes)
  }

  predicate Reading(st: State) {
    st.c.inString && !st.c.escaped && st.strLen <= UINT_LIMIT
  }

  lemma PutTurn(text: string, first: bool, st: State, c: Control, bytes: string)
    requires Ready(text, first, st) && Next(text, st) == Put(c, |bytes|, bytes)
    ensures var s := st.(c := c, strLen := st.strLen + |bytes|, buf := if first then st.buf else st.buf + bytes);
            Leads(text, first, st, More(s)) && Ready(text, first, s)
  {
    Go(text, first, st, Step(text, first, st));
  }

  /** The backslash that starts an escape. */
  lemma Backslash(text: string, first: bool, st: State, rest: string)
    requires Ready(text, first, st) && Reading(st) && AtText(text, st.c.i, ['\\'] + rest)
    ensures var e := st.(c := st.c.(i := st.c.i + 1, escaped := true));
            Leads(text, first, st, More(e)) && Ready(text, first, e) && AtText(text, e.c.i, rest)
  {
    AtSplit(text, st.c.i, ['\\'], rest);
    AtIndex(text, st.c.i, ['\\'], 0);
    Go(text, first, st, More(st.(c := st.c.(i := st.c.i + 1, escaped := true))));
  }

  lemma RunPlain(text: string, first: bool, st: State, c: char)
    requires Ready(text, first, st) && Reading(st) && PieceOk(Plain(c)) && AtText(text, st.c.i, [c])
    ensures Leads(text, first, st, More(Said(first, st, 1, [c])))
  {
    AtIndex(text, st.c.i, [c], 0);
    PutTurn(text, first, st, st.c.(i := st.c.i + 1), [c]);
  }

  lemma RunShort(text: string, first: bool, st: State, c: char)
    requires Ready(text, first, st) && Reading(st) && PieceOk(Short(c)) && AtText(text, st.c.i, ['\\'] + [c])
    ensures Leads(text, first, st, More(Said(first, st, 2, [ShortFor(c)])))
  {
    Backslash(text, first, st, [c]);
    var e := st.(c := st.c.(i := st.c.i + 1, escaped := true));
    AtIndex(text, e.c.i, [c], 0);
    assert Unescape(c) == ShortFor(c);
    PutTurn(text, first, e, e.c.(i := e.c.i + 1, escaped := false), [ShortFor(c)]);
    LeadsOn(text, first, st, e, More(Said(first, st, 2, [ShortFor(c)])));
  }

  lemma RunUnicode(text: string, first: bool, st: State, rest: string, code: nat)
    requires Ready(text, first, st) && Reading(st) && AtText(text, st.c.i, ['\\'] + rest) && rest != "" &&
             rest[0] == 'u'
    requires code < 0x100000 && Unicode(text, st.c.i + 1) == CodePoint(code, st.c.i + |rest|)
    ensures Leads(text, first, st, More(Said(first, st, 1 + |rest|, PointBytes(code))))
  {
    Backslash(text, first, st, rest);
    PointBytesAre(code);
    var e := st.(c := st.c.(i := st.c.i + 1, escaped := true));
    AtIndex(text, e.c.i, rest, 0);
    PutTurn(text, first, e, e.c.(i := st.c.i + |rest| + 1, escaped := false), Utf8(code));
    LeadsOn(text, first, st, e, More(Said(first, st, 1 + |rest|, PointBytes(code))));
  }

  lemma RunPoint(text: string, first: bool, st: State, p: Piece)
    requires Ready(text, first, st) && Reading(st) && p.Point? && PieceOk(p) && AtText(text, st.c.i, PieceText(p))
    ensures Leads(text, first, st, More(Said(first, st, |PieceText(p)|, PieceBytes(p))))
  {
    AtSplit(text, st.c.i, ['\\'], Escape(p));
    PointReads(text, st.c.i + 1, p);
    RunUnicode(text, first, st, Escape(p), p.code);
  }

  lemma RunPair(text: string, first: bool, st: State, p: Piece)
    requires Ready(text, first, st) && Reading(st) && p.Pair? && PieceOk(p) && AtText(text, st.c.i, PieceText(p))
    ensures Leads(text, first, st, More(Said(first, st, |PieceText(p)|, PieceBytes(p))))
  {
    AtSplit(text, st.c.i, ['\\'], Escape(p));
    PairReads(text, st.c.i + 1, p);
    RunUnicode(text, first, st, Escape(p), PairRead(PairCode(p.u, p.u2)));
  }

  lemma RunPiece(text: string, first: bool, st: State, p: Piece)
    requires Ready(text, first, st) && Reading(st) && PieceOk(p) && AtText(text, st.c.i, PieceText(p))
    ensures Leads(text, first, st, More(Said(first, st, |PieceText(p)|, PieceBytes(p))))
  {
    if p.Plain? {
      RunPlain(text, first, st, p.c);
    } else if p.Short? {
      RunShort(text, first, st, p.c);
    } else if p.Point? {
      RunPoint(text, first, st, p);
    } else {
      RunPair(text, first, st, p);
    }
  }

  lemma SaidTwice(text: string, first: bool, st: State, u: State, s: State, n: nat, a: string, m: nat, b: string)
    requires u == Said(first, st, n, a) && s == Said(first, u, m, b)
    requires Leads(text, first, st, More(u)) && Leads(text, first, u, More(s))
    ensures Leads(text, first, st, More(s)) && s == Said(first, st, n + m, a + b)
  {
    assert st.buf + a + b == st.buf + (a + b);
    LeadsOn(text, first, st, u, More(s));
  }

  lemma NextPiece(text: string, first: bool, st: State, p: Piece, rest: string) returns (m: State)
    requires Ready(text, first, st) && Reading(st) && PieceOk(p) && AtText(text, st.c.i, PieceText(p) + rest)
    ensures m == Said(first, st, |PieceText(p)|, PieceBytes(p))
    ensures Leads(text, first, st, More(m)) && Ready(text, first, m) && AtText(text, m.c.i, rest)
  {
    AtSplit(text, st.c.i, PieceText(p), rest);
    RunPiece(text, first, st, p);
    m := Said(first, st, |PieceText(p)|, PieceBytes(p));
    Comes(text, first, st, More(m));
  }

  lemma {:induction false} RunPieces(text: string, first: bool, st: State, ps: seq<Piece>) returns (s: State)
    requires Ready(text, first, st) && st.c.inString && !st.c.escaped && AllPieces(ps)
    requires st.strLen + |Meant(ps)| <= UINT_LIMIT && AtText(text, st.c.i, Written(ps))
    ensures s == Said(first, st, |Written(ps)|, Meant(ps))
    ensures Leads(text, first, st, More(s)) && Ready(text, first, s)
    decreases |ps|
  {
    if ps == [] {
      s := st;
      Stay(text, first, st);
    } else {
      var n, a, w, b := |PieceText(ps[0])|, PieceBytes(ps[0]), Written(ps[1..]), Meant(ps[1..]);
      var m := NextPiece(text, first, st, ps[0], w);
      s := RunPieces(text, first, m, ps[1..]);
      SaidTwice(text, first, st, m, s, n, a, |w|, b);
    }
  }
}

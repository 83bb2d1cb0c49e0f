/**
 What must stand in a text for the first pass to get through it: white space, the pieces of a
 string, a number. Each is told from the text by the pass running to its end.
 */
module JsonWords {
  import opened Options
  import opened JsonMachine
  import opened JsonText
  import opened JsonRuns
  import opened JsonNumbers
  import opened JsonValues

  /** On the way to the end of the first pass, with the cursor inside the text. */
  ghost predicate Going(text: string, st: State) {
    Ends(text, true, st) && 0 <= st.c.i <= |text|
  }

  lemma TurnGoes(text: string, st: State)
    requires Ends(text, true, st)
    ensures var o := Step(text, true, st); (o.More? || o.Done?) && (o.More? ==> Ends(text, true, o.st))
  {
    OneTurn(text, true, st);
    EndsOn(text, true, st, Step(text, true, st));
  }

  // ----- joining texts -----

  lemma AtJoin(text: string, i: int, a: string, b: string)
    requires AtText(text, i, a) && AtText(text, i + |a|, b)
    ensures AtText(text, i, a + b)
  {
    forall k | 0 <= k < |a + b|
      ensures Stands(text, i, a + b, k)
    {
      if k < |a| {
        assert Stands(text, i, a, k);
      } else {
        assert Stands(text, i + |a|, b, k - |a|);
      }
    }
  }

  lemma AtChar(text: string, i: int, c: char)
    requires 0 <= i <= |text| && At(text, i) == c != '\0'
    ensures AtText(text, i, [c])
  {
    assert Stands(text, i, [c], 0);
  }

  lemma {:induction false} SpacesAt(text: string, i: nat) returns (w: string)
    requires i <= |text|
    ensures White(w) && AtText(text, i, w) && !IsSpace(At(text, i + |w|))
    decreases |text| - i
  {
    w := "";
    if i < |text| && IsSpace(text[i]) {
      w := SpacesAt(text, i + 1);
      AtChar(text, i, text[i]);
      AtJoin(text, i, [text[i]], w);
      w := [text[i]] + w;
    }
  }

  lemma {:induction false} DigitsAt(text: string, i: nat) returns (w: string)
    requires i <= |text|
    ensures Digits(w) && AtText(text, i, w) && !IsDigit(At(text, i + |w|))
    decreases |text| - i
  {
    w := "";
    if i < |text| && IsDigit(text[i]) {
      w := DigitsAt(text, i + 1);
      AtChar(text, i, text[i]);
      AtJoin(text, i, [text[i]], w);
      w := [text[i]] + w;
    }
  }

  lemma ReadSpaces(text: string, st: State) returns (w: string, s: State)
    requires Going(text, st) && BetweenTokens(st)
    ensures White(w) && AtText(text, st.c.i, w) && s == Moved(st, |w|) && Leads(text, true, st, More(s))
    ensures Going(text, s) && !IsSpace(At(text, s.c.i))
  {
    w := SpacesAt(text, st.c.i);
    SkipSpaces(text, true, st, w);
    s := Moved(st, |w|);
    EndsOn(text, true, st, More(s));
  }

  // ----- strings -----

  lemma HexRead(c: char)
    requires HexValue(c) >= 0
    ensures HexIs(c, HexValue(c))
  {
  }

  lemma HexRoom(n: nat, a: nat, b: nat, c: nat, d: nat)
    requires a < 16 && b < 16 && c < 16 && d < 16 && n == ((a * 16 + b) * 16 + c) * 16 + d
    ensures n < 65536 && n / 4096 == a && n / 256 % 16 == b && n / 16 % 16 == c && n % 16 == d
  {
    assert n / 16 == (a * 16 + b) * 16 + c && n / 256 == a * 16 + b;
  }

  /** Where four hexadecimal digits are read, they stand there. */
  lemma DigitsOf(text: string, i: nat) returns (digits: string)
    requires Hex4(text, i) >= 0
    ensures HexOf(digits, Hex4(text, i)) && AtText(text, i, digits)
  {
    var a, b, c, d := At(text, i), At(text, i + 1), At(text, i + 2), At(text, i + 3);
    digits := [a, b, c, d];
    HexRead(a);
    HexRead(b);
    HexRead(c);
    HexRead(d);
    HexRoom(Hex4(text, i), HexValue(a), HexValue(b), HexValue(c), HexValue(d));
    forall k | 0 <= k < 4
      ensures Stands(text, i, digits, k)
    {
    }
  }

  /** A \u escape that is read is one of the pieces. */
  lemma EscapeOf(text: string, i: nat) returns (p: Piece)
    requires Unicode(text, i).CodePoint? && At(text, i) == 'u' && i < |text|
    ensures (p.Point? || p.Pair?) && PieceOk(p) && AtText(text, i, Escape(p))
  {
    var u := Hex4(text, i + 1);
    var high := DigitsOf(text, i + 1);
    AtChar(text, i, 'u');
    AtJoin(text, i, ['u'], high);
    p := Point(u, high);
    if 0xD800 <= u <= 0xDFFF {
      var low := DigitsOf(text, i + 7);
      AtChar(text, i + 5, '\\');
      AtChar(text, i + 6, 'u');
      AtJoin(text, i + 5, ['\\'], ['u']);
      assert ['\\'] + ['u'] == ['\\', 'u'];
      AtJoin(text, i, ['u'] + high, ['\\', 'u']);
      AtJoin(text, i, ['u'] + high + ['\\', 'u'], low);
      p := Pair(u, Hex4(text, i + 7), high, low);
    }
  }

  /** Inside a string the text goes on, and the string is within the limit. */
  lemma InsideString(text: string, st: State)
    requires Going(text, st) && st.c.inString
    ensures st.strLen <= UINT_LIMIT && At(text, st.c.i) != '\0'
    ensures Next(text, st) == StringChar(text, st.c, At(text, st.c.i)) && !Next(text, st).Reject?
  {
    TurnGoes(text, st);
  }

  lemma PieceAt(text: string, st: State) returns (p: Piece)
    requires Going(text, st) && st.c.inString && !st.c.escaped && At(text, st.c.i) != '"'
    ensures Reading(st) && PieceOk(p) && AtText(text, st.c.i, PieceText(p))
  {
    InsideString(text, st);
    var b := At(text, st.c.i);
    AtChar(text, st.c.i, b);
    if b != '\\' {
      p := Plain(b);
    } else {
      var e := AfterBackslash(text, st);
      InsideString(text, e);
      p := EscapeAt(text, e);
      AtJoin(text, st.c.i, ['\\'], Escape(p));
    }
  }

  lemma AfterBackslash(text: string, st: State) returns (e: State)
    requires Going(text, st) && Reading(st) && AtText(text, st.c.i, ['\\'])
    ensures e == st.(c := st.c.(i := st.c.i + 1, escaped := true)) && Going(text, e)
  {
    AtIndex(text, st.c.i, ['\\'], 0);
    TurnGoes(text, st);
    e := st.(c := st.c.(i := st.c.i + 1, escaped := true));
  }

  lemma EscapeAt(text: string, e: State) returns (p: Piece)
    requires Going(text, e) && e.c.inString && e.c.escaped
    ensures !p.Plain? && PieceOk(p) && AtText(text, e.c.i, Escape(p))
  {
    InsideString(text, e);
    var b := At(text, e.c.i);
    if b != 'u' {
      AtChar(text, e.c.i, b);
      p := Short(b);
    } else {
      p := EscapeOf(text, e.c.i);
    }
  }

  lemma ReadPiece(text: string, st: State) returns (p: Piece, m: State)
    requires Going(text, st) && st.c.inString && !st.c.escaped && At(text, st.c.i) != '"'
    ensures PieceOk(p) && AtText(text, st.c.i, PieceText(p)) && m == Said(true, st, |PieceText(p)|, PieceBytes(p))
    ensures Leads(text, true, st, More(m)) && Going(text, m) && m.c.i > st.c.i
  {
    p := PieceAt(text, st);
    RunPiece(text, true, st, p);
    m := Said(true, st, |PieceText(p)|, PieceBytes(p));
    EndsOn(text, true, st, More(m));
  }

  lemma {:induction false} ReadPieces(text: string, st: State) returns (ps: seq<Piece>, s: State)
    requires Going(text, st) && st.c.inString && !st.c.escaped
    ensures AllPieces(ps) && AtText(text, st.c.i, Written(ps)) && s == Said(true, st, |Written(ps)|, Meant(ps))
    ensures Leads(text, true, st, More(s)) && Going(text, s) && At(text, s.c.i) == '"' && Reading(s)
    decreases |text| - st.c.i
  {
    if At(text, st.c.i) == '"' {
      InsideString(text, st);
      ps, s := [], st;
      Stay(text, true, st);
    } else {
      var p, m := ReadPiece(text, st);
      ps, s := ReadPieces(text, m);
      PiecesAt(text, st.c.i, m.c.i, p, ps);
      SaidMore(text, st, m, s, p, ps);
      ps := [p] + ps;
    }
  }

  lemma PiecesAt(text: string, i: int, j: int, p: Piece, ps: seq<Piece>)
    requires PieceOk(p) && AllPieces(ps) && AtText(text, i, PieceText(p)) && AtText(text, j, Written(ps))
    requires j == i + |PieceText(p)|
    ensures AllPieces([p] + ps) && AtText(text, i, Written([p] + ps))
  {
    PiecesWith(p, ps);
    AtJoin(text, i, PieceText(p), Written(ps));
  }

  lemma SaidMore(text: string, st: State, m: State, s: State, p: Piece, ps: seq<Piece>)
    requires m == Said(true, st, |PieceText(p)|, PieceBytes(p)) && s == Said(true, m, |Written(ps)|, Meant(ps))
    requires Leads(text, true, st, More(m)) && Leads(text, true, m, More(s))
    ensures s == Said(true, st, |Written([p] + ps)|, Meant([p] + ps)) && Leads(text, true, st, More(s))
  {
    PiecesWith(p, ps);
    SaidTwice(text, true, st, m, s, |PieceText(p)|, PieceBytes(p), |Written(ps)|, Meant(ps));
  }

  lemma PiecesWith(p: Piece, ps: seq<Piece>)
    ensures Written([p] + ps) == PieceText(p) + Written(ps) && Meant([p] + ps) == PieceBytes(p) + Meant(ps)
    ensures PieceOk(p) && AllPieces(ps) ==> AllPieces([p] + ps)
  {
    assert ([p] + ps)[1..] == ps;
  }

  // ----- numbers -----

  /** The first pass enters a number, past its minus sign. */
  lemma EnterNumber(text: string, st: State) returns (a: State)
    requires Going(text, st) && Expecting(st) && st.alloc == |st.nodes|
    requires IsDigit(At(text, st.c.i)) || At(text, st.c.i) == '-'
    ensures Leads(text, true, st, More(a)) && Going(text, a)
    ensures var minus := At(text, st.c.i) == '-';
            && a.c == st.c.(i := if minus then st.c.i + 1 else st.c.i, seek := false)
            && a.num == Num(minus, false, false, false, 0)
    ensures a.nodes == st.nodes + [Fresh(KInteger, st.top)] && a.top == |st.nodes|
  {
    OneTurn(text, true, st);
    TurnGoes(text, st);
    a := Step(text, true, st).st;
  }

  /** A number that begins with zero has no second digit. */
  lemma NoLeadingZero(text: string, a: State, w: string, zero: string)
    requires AtWhole(text, a, zero) && AtText(text, a.c.i, w) && Digits(w) && |w| > 1 && w[0] == '0' && zero == [w[0]]
    ensures Step(text, true, WholeAfter(a, zero, 1)) == Rejected
  {
    AtIndex(text, a.c.i, w, 1);
  }

  lemma WholeAt(text: string, a: State) returns (w: string, s: State)
    requires Going(text, a) && AtWhole(text, a, "")
    ensures AtWhole(text, a, w) && s == WholeAfter(a, w, |w|) && Leads(text, true, a, More(s)) && Going(text, s)
    ensures !IsDigit(At(text, s.c.i)) && (IsDigit(At(text, a.c.i)) ==> w != "")
  {
    w := DigitsAt(text, a.c.i);
    if |w| > 1 && w[0] == '0' {
      var zero := [w[0]];
      AtIndex(text, a.c.i, w, 0);
      AtChar(text, a.c.i, w[0]);
      RunWhole(text, a, zero, 1);
      EndsOn(text, true, a, More(WholeAfter(a, zero, 1)));
      NoLeadingZero(text, a, w, zero);
      TurnGoes(text, WholeAfter(a, zero, 1));
      assert false;
    }
    RunWhole(text, a, w, |w|);
    s := WholeAfter(a, w, |w|);
    EndsOn(text, true, a, More(s));
  }

  /** Digits that must be there: the pass does not get past an empty fraction or exponent. */
  lemma FiguresAt(text: string, m: State) returns (w: string, s: State)
    requires Going(text, m) && Counting(m) && m.nodes[m.top].kind == KDouble && m.num.digits == 0
    requires m.num.e && !m.num.gotSign ==> At(text, m.c.i) != '+' && At(text, m.c.i) != '-'
    ensures Figures(w) && AtText(text, m.c.i, w) && s == FiguresAfter(m, |w|)
    ensures Leads(text, true, m, More(s)) && Going(text, s) && !IsDigit(At(text, s.c.i))
  {
    w := DigitsAt(text, m.c.i);
    if w == "" {
      TurnGoes(text, m);
      assert false;
    }
    RunFigures(text, m, w, |w|);
    s := FiguresAfter(m, |w|);
    EndsOn(text, true, m, More(s));
  }

  lemma FractionAt(text: string, s: State) returns (f: Option<string>, t: State)
    requires Going(text, s) && Counting(s) && s.nodes[s.top].kind == KInteger && !s.num.e && !s.num.gotSign
    requires !IsDigit(At(text, s.c.i))
    ensures (f.Some? ==> Figures(f.value) && s.num.digits > 0) && AtText(text, s.c.i, FractionText(f))
    ensures Going(text, t) && Counting(t) && t.c.i == s.c.i + |FractionText(f)| && !t.num.e && !t.num.gotSign
    ensures Leads(text, true, s, More(t)) && !IsDigit(At(text, t.c.i)) && Past(s, t)
    ensures if f.Some? then t.nodes[t.top].kind == KDouble && t.num.digits > 0 else t == s && At(text, t.c.i) != '.'
  {
    if At(text, s.c.i) == '.' {
      TurnGoes(text, s);
      OneTurn(text, true, s);
      var m := Step(text, true, s).st;
      var w;
      w, t := FiguresAt(text, m);
      LeadsOn(text, true, s, m, More(t));
      f := Some(w);
      AtChar(text, s.c.i, '.');
      AtJoin(text, s.c.i, ".", w);
    } else {
      f, t := None, s;
      Stay(text, true, s);
    }
  }

  /** Still in the same number, with the same parent. */
  predicate Past(s: State, t: State) {
    && TopOk(s) && TopOk(t) && t.top == s.top && |t.nodes| == |s.nodes|
    && t.c == s.c.(i := t.c.i) && t.nodes == s.nodes[s.top := t.nodes[s.top]]
    && t.nodes[t.top].parent == s.nodes[s.top].parent
  }

  lemma SignAt(text: string, s: State) returns (sign: string, t: State)
    requires Going(text, s) && Counting(s) && s.nodes[s.top].kind == KDouble && s.num.e && !s.num.gotSign
    ensures sign in ["", "+", "-"] && AtText(text, s.c.i, sign) && Leads(text, true, s, More(t)) && Going(text, t)
    ensures t == s.(c := s.c.(i := s.c.i + |sign|), num := s.num.(gotSign := t.num.gotSign))
    ensures !t.num.gotSign ==> At(text, t.c.i) != '+' && At(text, t.c.i) != '-'
  {
    var b := At(text, s.c.i);
    if b == '+' || b == '-' {
      TurnGoes(text, s);
      OneTurn(text, true, s);
      AtChar(text, s.c.i, b);
      sign, t := [b], Step(text, true, s).st;
    } else {
      sign, t := "", s;
      Stay(text, true, s);
    }
  }

  lemma ExponentAt(text: string, s: State) returns (e: Option<Exponent>, t: State)
    requires Going(text, s) && Counting(s) && !s.num.e && !s.num.gotSign && !IsDigit(At(text, s.c.i))
    requires s.nodes[s.top].kind == KDouble ==> s.num.digits > 0
    requires s.nodes[s.top].kind == KInteger ==> At(text, s.c.i) != '.'
    ensures ExponentOk(e) && AtText(text, s.c.i, ExponentText(e)) && Leads(text, true, s, More(t))
    ensures Going(text, t) && Counting(t) && t.c.i == s.c.i + |ExponentText(e)| && Past(s, t)
    ensures Next(text, t) == Close(t.c)
  {
    var b := At(text, s.c.i);
    if b == 'e' || b == 'E' {
      AtChar(text, s.c.i, b);
      TurnGoes(text, s);
      var l := ExponentLetter(text, s, b);
      EndsOn(text, true, s, More(l));
      var sign, g := SignAt(text, l);
      var w;
      w, t := FiguresAt(text, g);
      LeadsOn(text, true, l, g, More(t));
      LeadsOn(text, true, s, l, More(t));
      AtJoin(text, s.c.i, [b], sign);
      AtJoin(text, s.c.i, [b] + sign, w);
      e := Some(Exponent(b, sign, w));
    } else {
      e, t := None, s;
      Stay(text, true, s);
    }
  }
}

/**
 Numbers as the two passes take them: the first counts digit by digit, telling integers from
 doubles, and the second skips all of the number at once.
 */
module JsonNumbers {
  import opened Options
  import opened JsonMachine
  import opened JsonText
  import opened JsonRuns

  /** A value may begin here. */
  predicate Expecting(st: State) {
    st.c.seek && !st.c.needComma && !st.c.needColon && !st.c.inString && !st.c.escaped && !st.c.done
  }

  /** Inside a number. */
  predicate Counting(st: State) {
    && TopOk(st) && (st.nodes[st.top].kind == KInteger || st.nodes[st.top].kind == KDouble)
    && !st.c.inString && !st.c.done && !st.c.seek
  }

  // ----- the first pass -----

  /** The whole part up to its k-th digit, where st is at the first. */
  function WholeAfter(st: State, w: string, k: nat): State
    requires TopOk(st) && Digits(w) && k <= |w|
  {
    var n: int := Decimal(w[..k]);
    st.(c := st.c.(i := st.c.i + k),
        num := st.num.(digits := k, zero := k == 1 && w[0] == '0'),
        nodes := st.nodes[st.top := st.nodes[st.top].(number := if st.num.negative then -n else n)])
  }

  predicate AtWhole(text: string, st: State, w: string) {
    && Counting(st) && st.nodes[st.top].kind == KInteger && st.nodes[st.top].number == 0
    && !st.num.e && !st.num.zero && st.num.digits == 0
    && AtText(text, st.c.i, w) && Digits(w) && (|w| > 1 ==> w[0] != '0')
  }

  lemma WholeTurn(text: string, st: State, w: string, k: nat)
    requires AtWhole(text, st, w) && k < |w|
    ensures Step(text, true, WholeAfter(st, w, k)) == More(WholeAfter(st, w, k + 1))
  {
    AtIndex(text, st.c.i, w, k);
    assert w[..k + 1][..k] == w[..k];
    var a := WholeAfter(st, w, k);
    var num := st.num.(digits := k + 1, zero := k == 0 && w[0] == '0');
    assert Next(text, a) == Digit(a.c.(i := a.c.i + 1), num, false, w[k] as int - '0' as int);
  }

  lemma {:induction false} RunWhole(text: string, st: State, w: string, k: nat)
    requires AtWhole(text, st, w) && k <= |w|
    ensures Leads(text, true, st, More(WholeAfter(st, w, k)))
    decreases k
  {
    if k == 0 {
      assert WholeAfter(st, w, 0) == st;
      Stay(text, true, st);
    } else {
      RunWhole(text, st, w, k - 1);
      WholeTurn(text, st, w, k - 1);
      OneTurn(text, true, WholeAfter(st, w, k - 1));
      LeadsOn(text, true, st, WholeAfter(st, w, k - 1), More(WholeAfter(st, w, k)));
    }
  }

  /** After k digits of a fraction or an exponent. */
  function FiguresAfter(st: State, k: nat): State {
    st.(c := st.c.(i := st.c.i + k),
        num := st.num.(digits := st.num.digits + k, gotSign := st.num.gotSign || (st.num.e && k > 0)))
  }

  lemma {:induction false} RunFigures(text: string, st: State, w: string, k: nat)
    requires Counting(st) && st.nodes[st.top].kind == KDouble
    requires AtText(text, st.c.i, w) && Digits(w) && k <= |w|
    ensures Leads(text, true, st, More(FiguresAfter(st, k)))
    decreases k
  {
    if k == 0 {
      assert FiguresAfter(st, 0) == st;
      Stay(text, true, st);
    } else {
      RunFigures(text, st, w, k - 1);
      AtIndex(text, st.c.i, w, k - 1);
      OneTurn(text, true, FiguresAfter(st, k - 1));
      LeadsOn(text, true, st, FiguresAfter(st, k - 1), More(FiguresAfter(st, k)));
    }
  }

  /** s is st further on in the same number: only text, flags and the number's own node have changed. */
  predicate Further(st: State, s: State, n: nat, kind: Kind) {
    && TopOk(st) && |s.nodes| == |st.nodes|
    && s == st.(c := st.c.(i := st.c.i + n), num := s.num, nodes := s.nodes)
    && s.nodes == st.nodes[st.top := st.nodes[st.top].(kind := kind, number := s.nodes[st.top].number)]
    && if kind == KDouble then s.num.digits > 0 else !s.num.e
  }

  lemma RunFraction(text: string, st: State, f: string) returns (s: State)
    requires Counting(st) && st.nodes[st.top].kind == KInteger && !st.num.e && st.num.digits > 0
    requires Figures(f) && AtText(text, st.c.i, "." + f)
    ensures Leads(text, true, st, More(s)) && Further(st, s, 1 + |f|, KDouble)
    ensures !s.num.e && s.num.gotSign == st.num.gotSign
  {
    AtSplit(text, st.c.i, ".", f);
    AtIndex(text, st.c.i, ".", 0);
    var v := st.nodes[st.top].(kind := KDouble);
    var m := st.(c := st.c.(i := st.c.i + 1), num := st.num.(digits := 0), nodes := st.nodes[st.top := v]);
    OneTurn(text, true, st);
    RunFigures(text, m, f, |f|);
    s := FiguresAfter(m, |f|);
    LeadsOn(text, true, st, m, More(s));
  }

  /** The letter of an exponent. */
  lemma ExponentLetter(text: string, st: State, e: char) returns (s: State)
    requires Counting(st) && !st.num.e && (st.nodes[st.top].kind == KDouble ==> st.num.digits > 0)
    requires AtText(text, st.c.i, [e]) && e in "eE"
    ensures Leads(text, true, st, More(s)) && Counting(s) && s.nodes[s.top].kind == KDouble && s.num.e
    ensures s.num.gotSign == st.num.gotSign && s.num.digits == 0
    ensures s == st.(c := st.c.(i := st.c.i + 1), num := s.num, nodes := s.nodes)
    ensures s.nodes == st.nodes[st.top := st.nodes[st.top].(kind := KDouble)]
  {
    AtIndex(text, st.c.i, [e], 0);
    OneTurn(text, true, st);
    s := Step(text, true, st).st;
  }

  lemma ExponentSign(text: string, st: State, sign: string) returns (s: State)
    requires Counting(st) && st.nodes[st.top].kind == KDouble && st.num.e && !st.num.gotSign
    requires AtText(text, st.c.i, sign) && sign in ["", "+", "-"]
    ensures Leads(text, true, st, More(s)) && s == st.(c := st.c.(i := st.c.i + |sign|), num := s.num) && s.num.e
  {
    if sign == "" {
      s := st;
      Stay(text, true, st);
    } else {
      AtIndex(text, st.c.i, sign, 0);
      OneTurn(text, true, st);
      s := Step(text, true, st).st;
    }
  }

  lemma RunExponent(text: string, st: State, e: Exponent) returns (s: State)
    requires Counting(st) && !st.num.e && !st.num.gotSign && (st.nodes[st.top].kind == KDouble ==> st.num.digits > 0)
    requires e.e in "eE" && e.sign in ["", "+", "-"] && Figures(e.digits)
    requires AtText(text, st.c.i, [e.e] + e.sign + e.digits)
    ensures Leads(text, true, st, More(s)) && Further(st, s, 1 + |e.sign| + |e.digits|, KDouble)
  {
    AtSplit(text, st.c.i, [e.e] + e.sign, e.digits);
    AtSplit(text, st.c.i, [e.e], e.sign);
    var a := ExponentLetter(text, st, e.e);
    var b := ExponentSign(text, a, e.sign);
    RunFigures(text, b, e.digits, |e.digits|);
    s := FiguresAfter(b, |e.digits|);
    LeadsOn(text, true, a, b, More(s));
    LeadsOn(text, true, st, a, More(s));
  }

  /** What follows a number closes it. */
  lemma CloseNumber(text: string, st: State)
    requires Counting(st) && !InNumber(At(text, st.c.i))
    requires st.num.e || st.nodes[st.top].kind == KDouble ==> st.num.digits > 0
    ensures Leads(text, true, st, Complete(true, st))
  {
    assert Next(text, st) == Close(st.c);
    OneTurn(text, true, st);
  }

  lemma FurtherOn(a: State, b: State, c: State, n: nat, m: nat, k1: Kind, k2: Kind)
    requires Further(a, b, n, k1) && Further(b, c, m, k2)
    ensures Further(a, c, n + m, k2)
  {
  }

  lemma RunWholePart(text: string, st: State, n: Numeral) returns (s: State)
    requires NumeralOk(n) && AtWhole(text, st, n.whole) && st.num.negative == n.minus
    ensures Leads(text, true, st, More(s)) && Further(st, s, |n.whole|, KInteger) && !s.num.e
    ensures s.num.digits == |n.whole|
    ensures s.num.gotSign == st.num.gotSign && s.nodes[s.top].number == IntegerValue(n)
  {
    RunWhole(text, st, n.whole, |n.whole|);
    assert n.whole[..|n.whole|] == n.whole;
    s := WholeAfter(st, n.whole, |n.whole|);
  }

  lemma RunFractionPart(text: string, st: State, f: Option<string>) returns (s: State)
    requires Counting(st) && st.nodes[st.top].kind == KInteger && !st.num.e && (f.Some? ==> st.num.digits > 0)
    requires (f.Some? ==> Figures(f.value)) && AtText(text, st.c.i, FractionText(f))
    ensures Leads(text, true, st, More(s)) && Further(st, s, |FractionText(f)|, if f.Some? then KDouble else KInteger)
    ensures !s.num.e && s.num.gotSign == st.num.gotSign && (f.None? ==> s == st)
  {
    if f.Some? {
      s := RunFraction(text, st, f.value);
    } else {
      s := st;
      Stay(text, true, st);
    }
  }

  lemma RunExponentPart(text: string, st: State, e: Option<Exponent>) returns (s: State)
    requires Counting(st) && !st.num.e && !st.num.gotSign && (st.nodes[st.top].kind == KDouble ==> st.num.digits > 0)
    requires ExponentOk(e)
    requires AtText(text, st.c.i, ExponentText(e))
    ensures Leads(text, true, st, More(s))
    ensures Further(st, s, |ExponentText(e)|, if e.Some? then KDouble else st.nodes[st.top].kind)
    ensures e.None? ==> s == st
  {
    if e.Some? {
      s := RunExponent(text, st, e.value);
    } else {
      s := st;
      Stay(text, true, st);
    }
  }

  /** From the first digit of a numeral to the value that is completed at its end. */
  lemma RunDigits(text: string, st: State, n: Numeral) returns (s: State)
    requires NumeralOk(n) && AtWhole(text, st, n.whole) && !st.num.gotSign && st.num.negative == n.minus
    requires AtText(text, st.c.i + |n.whole|, FractionText(n.fraction))
    requires AtText(text, st.c.i + |n.whole| + |FractionText(n.fraction)|, ExponentText(n.exponent))
    ensures Leads(text, true, st, More(s))
    ensures Further(st, s, |n.whole| + |FractionText(n.fraction)| + |ExponentText(n.exponent)|, KindOf(Doc.Number(n)))
    ensures Whole(n) ==> s.nodes[s.top].number == IntegerValue(n)
  {
    var a := RunWholePart(text, st, n);
    var b := RunFractionPart(text, a, n.fraction);
    s := RunExponentPart(text, b, n.exponent);
    LeadsOn(text, true, st, a, More(b));
    LeadsOn(text, true, st, b, More(s));
    var kind := if n.fraction.Some? then KDouble else KInteger;
    FurtherOn(st, a, b, |n.whole|, |FractionText(n.fraction)|, KInteger, kind);
    FurtherOn(st, b, s, |n.whole| + |FractionText(n.fraction)|, |ExponentText(n.exponent)|, kind,
              if n.exponent.Some? then KDouble else kind);
  }

  /** The minus sign, and the digit that is then first. */
  lemma NumeralStarts(text: string, i: int, n: Numeral)
    requires NumeralOk(n) && AtText(text, i, NumeralText(n))
    ensures At(text, i) == '-' || IsDigit(At(text, i))
    ensures n.minus <==> At(text, i) == '-'
    ensures var k := if n.minus then i + 1 else i;
            && AtText(text, k, n.whole) && AtText(text, k + |n.whole|, FractionText(n.fraction))
            && AtText(text, k + |n.whole| + |FractionText(n.fraction)|, ExponentText(n.exponent))
  {
    var sign := if n.minus then "-" else "";
    AtSplit(text, i, sign + n.whole + FractionText(n.fraction), ExponentText(n.exponent));
    AtSplit(text, i, sign + n.whole, FractionText(n.fraction));
    AtSplit(text, i, sign, n.whole);
    if n.whole != "" {
      AtIndex(text, i + |sign|, n.whole, 0);
    }
    if n.minus {
      AtIndex(text, i, sign, 0);
    }
  }

  /** The first pass over a number: an integer with its value, or a double. */
  lemma CountNumber(text: string, st: State, n: Numeral) returns (u: State)
    requires NumeralOk(n) && AtText(text, st.c.i, NumeralText(n)) && Expecting(st) && st.alloc == |st.nodes|
    requires !InNumber(At(text, st.c.i + |NumeralText(n)|))
    ensures Leads(text, true, st, Complete(true, u))
    ensures u.c == st.c.(i := st.c.i + |NumeralText(n)|, seek := false)
    ensures u.top == st.alloc && u.alloc == st.alloc + 1 && |u.nodes| == |st.nodes| + 1
    ensures u.nodes == st.nodes + [Fresh(KindOf(Doc.Number(n)), st.top).(number := u.nodes[u.top].number)]
    ensures Whole(n) ==> u.nodes[u.top].number == IntegerValue(n)
  {
    NumeralStarts(text, st.c.i, n);
    var a := st.(c := st.c.(i := if n.minus then st.c.i + 1 else st.c.i, seek := false),
                 num := Num(n.minus, false, false, false, 0),
                 nodes := st.nodes + [Fresh(KInteger, st.top)], top := |st.nodes|, alloc := st.alloc + 1);
    assert Next(text, st) == Action.Number(st.c.(seek := false), n.minus);
    assert Step(text, true, st) == More(a);
    OneTurn(text, true, st);
    u := RunDigits(text, a, n);
    CloseNumber(text, u);
    LeadsOn(text, true, a, u, Complete(true, u));
    LeadsOn(text, true, st, a, Complete(true, u));
  }

  // ----- the second pass -----

  predicate AllInNumber(s: string) {
    forall i :: 0 <= i < |s| ==> InNumber(s[i])
  }

  lemma NumeralChars(n: Numeral)
    requires NumeralOk(n)
    ensures AllInNumber(NumeralText(n))
  {
    assert AllInNumber(n.whole);
    assert n.fraction.Some? ==> AllInNumber(n.fraction.value);
    if n.exponent.Some? {
      var e := n.exponent.value;
      assert AllInNumber([e.e]) && AllInNumber(e.sign) && AllInNumber(e.digits);
      assert AllInNumber([e.e] + e.sign + e.digits);
    }
  }

  lemma SkipsNumeral(text: string, i: int, t: string)
    requires AtText(text, i, t) && AllInNumber(t) && !InNumber(At(text, i + |t|))
    ensures SkipNumber(text, i) == i + |t|
  {
    var k := SkipNumber(text, i);
    if k < i + |t| {
      AtIndex(text, i, t, k - i);
    }
  }

  /** The second pass over a number: the recorded value is taken up and the text skipped. */
  lemma FillNumber(text: string, st: State, n: Numeral) returns (u: State)
    requires NumeralOk(n) && AtText(text, st.c.i, NumeralText(n)) && Expecting(st)
    requires !InNumber(At(text, st.c.i + |NumeralText(n)|)) && st.alloc < |st.nodes|
    ensures Leads(text, false, st, Complete(false, u))
    ensures u == st.(c := st.c.(i := st.c.i + |NumeralText(n)|, seek := false), top := st.alloc, alloc := st.alloc + 1,
                     nodes := st.nodes[st.alloc := Emptied(st.nodes[st.alloc])])
  {
    NumeralStarts(text, st.c.i, n);
    NumeralChars(n);
    SkipsNumeral(text, st.c.i, NumeralText(n));
    u := st.(c := st.c.(i := st.c.i + |NumeralText(n)|, seek := false), top := st.alloc, alloc := st.alloc + 1,
             nodes := st.nodes[st.alloc := Emptied(st.nodes[st.alloc])]);
    assert Next(text, st) == Action.Number(st.c.(seek := false), n.minus);
    OneTurn(text, false, st);
  }
}

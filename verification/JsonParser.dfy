/**
 `json_parse_ex` itself: the first pass over the text, and where it succeeds the second over
 what the first has counted.
 */
module JsonParser {
  import opened JsonMachine
  import opened JsonFirstPass
  import opened JsonTwoPass
  import opened JsonText
  import opened JsonRuns
  import opened JsonValues
  import opened JsonTrees
  import opened JsonLanguage
  import opened Options

  datatype Parsed = Failure | Success(counted: seq<Node>, filled: seq<Node>)

  /** The parsed value, at the root of the filled ones, holds the written one and nothing else. */
  ghost predicate IsParsed(r: Parsed, d: Doc) {
    r.Success? && |r.filled| == Size(d) && Holds(r.filled, 0, d)
  }

  lemma {:induction false} IterateOneMore(f: State -> Outcome, st: State, n: nat)
    requires Iterate(f, st, n).More?
    ensures Iterate(f, st, n + 1) == f(Iterate(f, st, n).st)
    decreases n
  {
    if n > 0 {
      IterateOneMore(f, f(st).st, n - 1);
    }
  }

  lemma NeverDone(text: string, n: nat)
    requires !Run(text, true, START, n).More? && !Run(text, true, START, n).Done?
    ensures !WritesSome(text)
  {
    Language(text);
    if k: nat :| Run(text, true, START, k).Done? {
      if k <= n {
        IterateStable(Turn(text, true), START, k, n);
      } else {
        IterateStable(Turn(text, true), START, n, k);
      }
    }
  }

  lemma ReadsWritten(text: string, n: nat, fin: State, m: nat, out: State)
    requires Run(text, true, START, n) == Done(fin) && Run(text, false, Restart(fin.nodes), m) == Done(out)
    requires FilledExactly(fin.nodes, out.nodes)
    ensures WritesSome(text)
    ensures forall gap1, d, gap2, rest ::
              Writes(text, gap1, d, gap2, rest) ==> IsParsed(Success(fin.nodes, out.nodes), d)
  {
    Language(text);
    forall gap1, d, gap2, rest | Writes(text, gap1, d, gap2, rest)
      ensures IsParsed(Success(fin.nodes, out.nodes), d)
    {
      var k, a := WrittenCounts(text, gap1, d, gap2, rest);
      OneEnd(text, true, START, k, a, n, fin);
      WrittenFills(text, gap1, d, gap2, rest, fin.nodes, m, out);
    }
  }

  /** The text of U+20000 as a surrogate pair is parsed to the bytes of U+10000. */
  lemma PairMisread(p: Piece, code: nat, read: nat)
    requires p == Pair(0xD840, 0xDC00, "D840", "DC00") && code == 0x20000 && read == 0x10000
    ensures Writes("\"\\uD840\\uDC00\"", "", Doc.Text([p]), "", "")
    ensures Surrogates(p.u, p.u2, code) && ReadPoint(Meant([p])) == Some(read)
  {
    assert PairRead(PairCode(p.u, p.u2)) == read;
    PairOk(p);
    PointBytesAre(read);
    Utf8Decodes(read);
    OnePiece(p);
    assert |Meant([p])| == Utf8Size(read) <= 4;
    assert Quoted([p]) == "\"\\uD840\\uDC00\"";
  }

  lemma PairOk(p: Piece)
    requires p == Pair(0xD840, 0xDC00, "D840", "DC00")
    ensures PieceOk(p) && PieceText(p) == "\\uD840\\uDC00"
  {
  }

  lemma OnePiece(p: Piece)
    ensures Meant([p]) == PieceBytes(p) && Written([p]) == PieceText(p)
  {
    assert Meant([p]) == PieceBytes(p) + Meant([]);
    assert Written([p]) == PieceText(p) + Written([]);
  }

  /**
   `json_parse_ex`: count, then fill. It succeeds exactly on the texts that write a value, and
   whatever value that is, written in whatever way, is what the filled values hold; every
   allocation is filled exactly as it was counted.
   */
  method Parse(text: string) returns (r: Parsed)
    ensures r.Success? <==> WritesSome(text)
    ensures r.Success? ==> FilledExactly(r.counted, r.filled)
    ensures forall gap1, d, gap2, rest :: Writes(text, gap1, d, gap2, rest) ==> IsParsed(r, d)
  {
    var st := START;
    ghost var n := 0;
    var o := More(START);
    while o.More?
      invariant o.More? ==> o.st == st && Shape(text, st)
      invariant Run(text, true, START, n) == o && !o.Crashed?
      decreases o.More?, Remaining(text, st)
    {
      FirstPassStep(text, st);
      IterateOneMore(Turn(text, true), START, n);
      o := Step(text, true, st);
      n := n + 1;
      if o.More? {
        st := o.st;
      }
    }
    if !o.Done? {
      NeverDone(text, n);
      return Failure;
    }
    var counted := o.st.nodes;
    ghost var m, out := SecondPassExact(text, n, o.st);
    ghost var k := 0;
    st := Restart(counted);
    var p := More(st);
    while p.More?
      invariant p.More? ==> p.st == st
      invariant k <= m && Run(text, false, Restart(counted), k) == p
      decreases m - k
    {
      IterateOneMore(Turn(text, false), Restart(counted), k);
      if k == m {
        assert false;
      }
      p := Step(text, false, st);
      k := k + 1;
      if p.More? {
        st := p.st;
      }
    }
    IterateStable(Turn(text, false), Restart(counted), k, m);
    r := Success(counted, p.st.nodes);
    ReadsWritten(text, n, o.st, k, p.st);
  }
}

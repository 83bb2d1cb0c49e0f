/**
 Base58 decoding, base58.cpp: `_blkmk_b58tobin` multiplies a number of 32-bit words by 58 and
 adds digit after digit; `is_base58` is the test applied to wallet addresses beforehand.
 Characters are their byte codes.
 */
module Base58 {
  import opened Options
  import opened Arithmetic

  const W := 0x1_0000_0000

  // ----- digits -----

  /** The rows of the table b58digits, 16 entries each. */
  const ROW3 := [-1, 0, 1, 2, 3, 4, 5, 6, 7, 8, -1, -1, -1, -1, -1, -1]
  const ROW4 := [-1, 9, 10, 11, 12, 13, 14, 15, 16, -1, 17, 18, 19, 20, 21, -1]
  const ROW5 := [22, 23, 24, 25, 26, 27, 28, 29, 30, 31, 32, -1, -1, -1, -1, -1]
  const ROW6 := [-1, 33, 34, 35, 36, 37, 38, 39, 40, 41, 42, 43, -1, 44, 45, 46]
  const ROW7 := [47, 48, 49, 50, 51, 52, 53, 54, 55, 56, 57, -1, -1, -1, -1, -1]

  /** b58digits, and no digit where the high bit is set. */
  function DigitOf(c: nat): int {
    if 48 <= c < 64 then ROW3[c - 48]
    else if 64 <= c < 80 then ROW4[c - 64]
    else if 80 <= c < 96 then ROW5[c - 80]
    else if 96 <= c < 112 then ROW6[c - 96]
    else if 112 <= c < 128 then ROW7[c - 112]
    else -1
  }

  /** Digits, then letters without I, O and l. */
  predicate IsDigit(c: nat) {
    (49 <= c <= 57 || 65 <= c <= 90 || 97 <= c <= 122) && c != 73 && c != 79 && c != 108
  }

  /** The table and the character test agree, and digits are below 58. */
  lemma DigitIff(c: nat)
    ensures DigitOf(c) != -1 <==> IsDigit(c)
    ensures IsDigit(c) ==> 0 <= DigitOf(c) < 58
  {
  }

  /** The alphabet 1-9, A-H, J-N, P-Z, a-k, m-z in the order of the digits' values. */
  function CharOf(d: nat): nat {
    if d < 9 then 49 + d
    else if d < 17 then 65 + (d - 9)
    else if d < 22 then 74 + (d - 17)
    else if d < 33 then 80 + (d - 22)
    else if d < 44 then 97 + (d - 33)
    else 109 + (d - 44)
  }

  lemma Figures(c: nat)
    requires 48 <= c < 64
    ensures DigitOf(c) == if 49 <= c <= 57 then c - 49 else -1
  {
  }

  lemma UpperLetters(c: nat)
    requires 64 <= c < 96
    ensures DigitOf(c) == if 65 <= c <= 72 then c - 56 else if 74 <= c <= 78 then c - 57
                          else if 80 <= c <= 90 then c - 58 else -1
  {
  }

  lemma LowerLetters(c: nat)
    requires 96 <= c < 128
    ensures DigitOf(c) == if 97 <= c <= 107 then c - 64 else if 109 <= c <= 122 then c - 65 else -1
  {
  }

  /** The table gives every character of the alphabet its place, and nothing else one. */
  lemma DigitIsPlace(c: nat, d: nat)
    requires d < 58
    ensures DigitOf(c) == d <==> c == CharOf(d)
  {
    if 48 <= c < 64 {
      Figures(c);
    } else if 64 <= c < 96 {
      UpperLetters(c);
    } else if 96 <= c < 128 {
      LowerLetters(c);
    }
  }

  predicate AllDigits(s: seq<nat>) {
    forall i :: 0 <= i < |s| ==> DigitOf(s[i]) != -1
  }

  /** `is_base58` accepts exactly the strings of Base58 digits. */
  method IsBase58(s: seq<nat>) returns (ok: bool)
    ensures ok <==> AllDigits(s)
  {
    for i := 0 to |s|
      invariant forall k :: 0 <= k < i ==> DigitOf(s[k]) != -1
    {
      DigitIff(s[i]);
      var isdigit := 49 <= s[i] <= 57;
      var isalpha := 97 <= s[i] <= 122 || 65 <= s[i] <= 90;
      if !isdigit && !isalpha {
        return false;
      }
      if s[i] == 73 || s[i] == 79 || s[i] == 108 {
        return false;
      }
    }
    return true;
  }

  // ----- numbers -----

  /** The number a string of digits encodes. */
  function Encoded(s: seq<nat>): int {
    if s == [] then 0 else 58 * Encoded(s[..|s| - 1]) + DigitOf(s[|s| - 1])
  }

  /** W^k. */
  function WPow(k: nat): (p: nat)
    ensures p >= 1
  {
    if k == 0 then 1 else W * WPow(k - 1)
  }

  /** The number in the words of outi, most significant first. */
  function Words(ws: seq<nat>): nat {
    if ws == [] then 0 else ws[0] * WPow(|ws| - 1) + Words(ws[1..])
  }

  predicate Small(ws: seq<nat>) {
    forall i :: 0 <= i < |ws| ==> ws[i] < W
  }

  /** One word of the multiplication: what it keeps and what it carries. */
  lemma CarryStep(w: nat, c: nat, p: nat, rest: nat, old_rest: nat, d: nat)
    requires rest + c * p == 58 * old_rest + d
    ensures var t := w * 58 + c;
            ((t % W) * p + rest) + (t / W) * (W * p) == 58 * (w * p + old_rest) + d
  {
  }

  lemma CarryBound(w: nat, c: nat)
    requires w < W && c < 58
    ensures var t := w * 58 + c; t / W < 58 && (t / W) % 64 == t / W && t % W < W
  {
  }

  /** The carry loop: outi := 58 outi + d, with what does not fit returned. */
  method MulAdd(outi: array<nat>, d: nat) returns (c: nat)
    requires d < 58 && Small(outi[..])
    modifies outi
    ensures Small(outi[..]) && Words(outi[..]) + c * WPow(outi.Length) == 58 * Words(old(outi[..])) + d
  {
    ghost var was := outi[..];
    c := d;
    var j := outi.Length;
    while j > 0
      invariant 0 <= j <= outi.Length && c < 58
      invariant Small(outi[..])
      invariant outi[..j] == was[..j]
      invariant Words(outi[j..]) + c * WPow(outi.Length - j) == 58 * Words(was[j..]) + d
    {
      j := j - 1;
      var t := outi[j] * 58 + c;
      CarryStep(outi[j], c, WPow(outi.Length - j - 1), Words(outi[j + 1..]), Words(was[j + 1..]), d);
      CarryBound(outi[j], c);
      ghost var tail := outi[j + 1..];
      c := (t / W) % 64;
      outi[j] := t % W;
      assert outi[j..] == [t % W] + tail && was[j..] == [was[j]] + was[j + 1..];
    }
    assert outi[0..] == outi[..] && was[0..] == was;
  }

  // ----- what fits -----

  /** The first number too large for binsz bytes; a width divisible by four loses a whole word. */
  function Limit(binsz: nat): nat
    requires binsz > 0
  {
    Pow256(if binsz % 4 == 0 then binsz - 4 else binsz)
  }

  lemma {:induction false} LimitIs(k: nat, b: nat)
    ensures Pow256(4 * k + b) == Pow256(b) * WPow(k)
  {
    if k > 0 {
      LimitIs(k - 1, b);
      FourMore(4 * (k - 1) + b);
      Regrouped(Pow256(b), WPow(k - 1));
    }
  }

  lemma FourMore(n: nat)
    ensures Pow256(n + 4) == W * Pow256(n)
  {
    assert Pow256(n + 4) == 256 * Pow256(n + 3) && Pow256(n + 3) == 256 * Pow256(n + 2);
    assert Pow256(n + 2) == 256 * Pow256(n + 1) && Pow256(n + 1) == 256 * Pow256(n);
  }

  lemma Regrouped(a: nat, p: nat)
    ensures W * (a * p) == a * (W * p)
  {
  }

  lemma TopDigit(w: nat, p: nat, rest: nat, m: nat)
    requires rest < p
    ensures w * p + rest < m * p <==> w < m
  {
    if w < m {
      MulMonotone(w + 1, m, p);
      assert (w + 1) * p == w * p + p;
    } else {
      MulMonotone(m, w, p);
    }
  }

  lemma {:induction false} WordsBelow(ws: seq<nat>)
    requires Small(ws)
    ensures Words(ws) < WPow(|ws|)
  {
    if ws != [] {
      WordsBelow(ws[1..]);
      TopDigit(ws[0], WPow(|ws| - 1), Words(ws[1..]), W);
    }
  }

  /** The test on the first word is the test against the limit. */
  lemma TopWord(ws: seq<nat>, m: nat)
    requires ws != [] && Small(ws)
    ensures Words(ws) < m * WPow(|ws| - 1) <==> ws[0] < m
  {
    WordsBelow(ws[1..]);
    TopDigit(ws[0], WPow(|ws| - 1), Words(ws[1..]), m);
  }

  lemma EncodedNext(s: seq<nat>, i: nat)
    requires i < |s|
    ensures Encoded(s[..i + 1]) == 58 * Encoded(s[..i]) + DigitOf(s[i])
  {
    assert s[..i + 1][..i] == s[..i];
  }

  /** More digits never make the number smaller. */
  lemma {:induction false} EncodedGrows(s: seq<nat>, i: nat)
    requires AllDigits(s) && i <= |s|
    ensures 0 <= Encoded(s[..i]) <= Encoded(s)
    decreases |s|
  {
    if i == |s| {
      assert s[..i] == s;
      if s != [] {
        EncodedGrows(s[..|s| - 1], |s| - 1);
        DigitIff(s[|s| - 1]);
      }
    } else {
      var init := s[..|s| - 1];
      EncodedGrows(init, i);
      assert init[..i] == s[..i];
      DigitIff(s[|s| - 1]);
    }
  }

  /** A number carried out of the words is over the limit. */
  lemma CarriedOut(ws: seq<nat>, c: nat, b: nat)
    requires ws != [] && b < 4 && c > 0
    ensures Words(ws) + c * WPow(|ws|) >= Pow256(b) * WPow(|ws| - 1)
  {
    assert Pow256(0) == 1 && Pow256(1) == 256 && Pow256(2) == 65536 && Pow256(3) == 16777216;
    MulMonotone(Pow256(b), W, WPow(|ws| - 1));
    MulMonotone(1, c, WPow(|ws|));
  }

  // ----- output bytes -----

  function BytesValue(bs: seq<nat>): nat {
    if bs == [] then 0 else 256 * BytesValue(bs[..|bs| - 1]) + bs[|bs| - 1]
  }

  /** The k low bytes of v, most significant first. */
  function BigEndian(v: nat, k: nat): (bs: seq<nat>)
    ensures |bs| == k && forall i :: 0 <= i < k ==> bs[i] < 256
  {
    if k == 0 then [] else BigEndian(v / 256, k - 1) + [v % 256]
  }

  lemma {:induction false} BytesConcat(a: seq<nat>, v: nat, k: nat)
    requires v < Pow256(k)
    ensures BytesValue(a + BigEndian(v, k)) == BytesValue(a) * Pow256(k) + v
  {
    if k == 0 {
      assert a + BigEndian(v, k) == a;
    } else {
      BytesConcat(a, v / 256, k - 1);
      var bs := a + BigEndian(v, k);
      assert bs[..|bs| - 1] == a + BigEndian(v / 256, k - 1);
      assert 256 * (BytesValue(a) * Pow256(k - 1)) == BytesValue(a) * Pow256(k);
    }
  }

  /** Before character i: the words hold the number so far, which fits. */
  ghost predicate Holds(ws: seq<nat>, s: seq<nat>, i: nat, limit: nat) {
    && ws != [] && Small(ws) && i <= |s| && AllDigits(s[..i])
    && Words(ws) == Encoded(s[..i]) && Words(ws) < limit
  }

  lemma DigitNext(s: seq<nat>, i: nat)
    requires i < |s| && AllDigits(s[..i])
    ensures AllDigits(s[..i + 1]) <==> DigitOf(s[i]) != -1
  {
  }

  /** One digit: refused if the number gets too large for the words or for the width. */
  method EnterDigit(outi: array<nat>, d: nat, bytesleft: nat, ghost limit: nat, ghost next: nat) returns (ok: bool)
    requires d < 58 && outi.Length > 0 && Small(outi[..]) && next == 58 * Words(outi[..]) + d
    requires bytesleft < 4 && limit == Pow256(bytesleft) * WPow(outi.Length - 1)
    modifies outi
    ensures Small(outi[..]) && (ok <==> next < limit) && (ok ==> Words(outi[..]) == next)
  {
    var c := MulAdd(outi, d);
    if c != 0 {
      CarriedOut(outi[..], c, bytesleft);
      return false;
    }
    TopWord(outi[..], Pow256(bytesleft));
    return outi[0] < Pow256(bytesleft);
  }

  /** One character: refused if it is no digit or the number gets too large. */
  method AddDigit(outi: array<nat>, s: seq<nat>, i: nat, bytesleft: nat, ghost limit: nat) returns (ok: bool)
    requires i < |s| && bytesleft < 4 && Holds(outi[..], s, i, limit)
    requires limit == Pow256(bytesleft) * WPow(outi.Length - 1)
    modifies outi
    ensures ok ==> Holds(outi[..], s, i + 1, limit)
    ensures !ok ==> !AllDigits(s[..i + 1]) || Encoded(s[..i + 1]) >= limit
  {
    DigitNext(s, i);
    DigitIff(s[i]);
    EncodedNext(s, i);
    var d := DigitOf(s[i]);
    if d == -1 {
      return false;
    }
    ok := EnterDigit(outi, d, bytesleft, limit, Encoded(s[..i + 1]));
  }

  /** A prefix that is refused decides the whole. */
  lemma RefusedEarly(s: seq<nat>, i: nat, limit: nat)
    requires i <= |s| && (!AllDigits(s[..i]) || Encoded(s[..i]) >= limit)
    ensures !(AllDigits(s) && Encoded(s) < limit)
  {
    if AllDigits(s) {
      assert forall k :: 0 <= k < i ==> s[..i][k] == s[k];
      EncodedGrows(s, i);
    }
  }

  /** The digit loop. */
  method Accumulate(outi: array<nat>, s: seq<nat>, bytesleft: nat, ghost limit: nat) returns (ok: bool)
    requires bytesleft < 4 && outi.Length > 0 && limit == Pow256(bytesleft) * WPow(outi.Length - 1)
    requires Small(outi[..]) && Words(outi[..]) == 0
    modifies outi
    ensures ok <==> AllDigits(s) && Encoded(s) < limit
    ensures ok ==> Small(outi[..]) && Words(outi[..]) == Encoded(s)
  {
    Positive(Pow256(bytesleft), WPow(outi.Length - 1));
    for i := 0 to |s|
      invariant Holds(outi[..], s, i, limit)
    {
      var good := AddDigit(outi, s, i, bytesleft, limit);
      if !good {
        RefusedEarly(s, i + 1, limit);
        return false;
      }
    }
    assert s[..|s|] == s;
    return true;
  }

  lemma Positive(a: nat, b: nat)
    requires a >= 1 && b >= 1
    ensures a * b >= 1
  {
  }

  predicate AllBytes(bs: seq<nat>) {
    forall i :: 0 <= i < |bs| ==> bs[i] < 256
  }

  /** The bytes of the words: the first gives as many as are left over, every other one four. */
  method WriteBytes(ws: seq<nat>, bytesleft: nat) returns (bin: seq<nat>)
    requires ws != [] && bytesleft < 4 && Small(ws) && ws[0] < Pow256(bytesleft)
    ensures AllBytes(bin) && BytesValue(bin) == Words(ws)
    ensures |bin| == 4 * (|ws| - 1) + if bytesleft == 0 then 4 else bytesleft
  {
    if bytesleft == 0 {
      assert ws[0..] == ws;
      bin := WriteWords(ws, [], 0);
    } else {
      var head := BigEndian(ws[0], bytesleft);
      FirstWord(ws, bytesleft, head);
      bin := WriteWords(ws, head, 1);
    }
  }

  lemma FirstWord(ws: seq<nat>, b: nat, head: seq<nat>)
    requires ws != [] && ws[0] < Pow256(b) && head == BigEndian(ws[0], b)
    ensures BytesValue(head) * WPow(|ws| - 1) + Words(ws[1..]) == Words(ws)
  {
    BytesOf(ws[0], b);
  }

  lemma BytesOf(v: nat, k: nat)
    requires v < Pow256(k)
    ensures BytesValue(BigEndian(v, k)) == v
  {
  }

  /** The loop that writes the words from j on. */
  method WriteWords(ws: seq<nat>, head: seq<nat>, start: nat) returns (bin: seq<nat>)
    requires start <= |ws| && Small(ws) && AllBytes(head)
    requires BytesValue(head) * WPow(|ws| - start) + Words(ws[start..]) == Words(ws)
    ensures AllBytes(bin) && BytesValue(bin) == Words(ws) && |bin| == |head| + 4 * (|ws| - start)
  {
    bin := head;
    for j := start to |ws|
      invariant |bin| == |head| + 4 * (j - start)
      invariant AllBytes(bin)
      invariant BytesValue(bin) * WPow(|ws| - j) + Words(ws[j..]) == Words(ws)
    {
      WordOut(ws, bin, j);
      bin := bin + BigEndian(ws[j], 4);
    }
  }

  lemma WordOut(ws: seq<nat>, bin: seq<nat>, j: nat)
    requires j < |ws| && Small(ws)
    ensures BytesValue(bin + BigEndian(ws[j], 4)) * WPow(|ws| - j - 1) + Words(ws[j + 1..]) ==
            BytesValue(bin) * WPow(|ws| - j) + Words(ws[j..])
  {
    assert Pow256(4) == W by {
      FourMore(0);
    }
    BytesConcat(bin, ws[j], 4);
    assert ws[j..][1..] == ws[j + 1..];
    Horner(BytesValue(bin), ws[j], WPow(|ws| - j - 1));
  }

  lemma Horner(a: nat, w: nat, p: nat)
    ensures (a * W + w) * p == a * (W * p) + w * p
  {
  }

  /**
   `_blkmk_b58tobin` for a width above zero: it succeeds exactly when every character is a
   digit and the number fits, and the bytes are then its big-endian form.
   */
  method Decode(s: seq<nat>, binsz: nat) returns (r: Option<seq<nat>>)
    requires binsz > 0
    ensures r.Some? <==> AllDigits(s) && Encoded(s) < Limit(binsz)
    ensures r.Some? ==> |r.value| == binsz && AllBytes(r.value) && BytesValue(r.value) == Encoded(s)
  {
    var outisz, bytesleft := (binsz + 3) / 4, binsz % 4;
    Sizes(binsz, outisz, bytesleft);
    var outi := new nat[outisz](_ => 0);
    AllZero(outi[..]);
    var ok := Accumulate(outi, s, bytesleft, Limit(binsz));
    if !ok {
      return None;
    }
    TopWord(outi[..], Pow256(bytesleft));
    var bin := WriteBytes(outi[..], bytesleft);
    return Some(bin);
  }

  lemma Sizes(binsz: nat, outisz: nat, bytesleft: nat)
    requires binsz > 0 && outisz == (binsz + 3) / 4 && bytesleft == binsz % 4
    ensures outisz > 0 && binsz == 4 * (outisz - 1) + if bytesleft == 0 then 4 else bytesleft
    ensures Limit(binsz) == Pow256(bytesleft) * WPow(outisz - 1)
  {
    LimitIs(outisz - 1, bytesleft);
  }

  lemma {:induction false} AllZero(ws: seq<nat>)
    requires forall i :: 0 <= i < |ws| ==> ws[i] == 0
    ensures Small(ws) && Words(ws) == 0
  {
    if ws != [] {
      AllZero(ws[1..]);
    }
  }

  /** bin is 2 bytes, a key of 20 bytes and 4 bytes, and encodes the number of s. */
  ghost predicate KeyOf(s: seq<nat>, key: seq<nat>) {
    exists head: seq<nat>, check: seq<nat> ::
      |head| == 2 && |check| == 4 && AllBytes(head + key + check) && BytesValue(head + key + check) == Encoded(s)
  }

  /** `base58_decode`: the 20 bytes before the last four of an address of at most 26 bytes, or nothing. */
  method DecodeAddress(s: seq<nat>) returns (key: Option<seq<nat>>)
    ensures key.Some? <==> AllDigits(s) && Encoded(s) < Pow256(26)
    ensures key.Some? ==> |key.value| == 20 && KeyOf(s, key.value)
  {
    var bin := Decode(s, 26);
    if bin.None? {
      return None;
    }
    var b := bin.value;
    assert b == b[..2] + b[2..22] + b[22..];
    return Some(b[2..22]);
  }
}

/** Copying into parts of buffers, as memcpy and the block copies of the hash cores do. */
module Buffers {

  /** s with t written over it from d on. */
  function Overlaid<T>(s: seq<T>, d: nat, t: seq<T>): (u: seq<T>)
    requires d + |t| <= |s|
    ensures |u| == |s|
  {
    s[..d] + t + s[d + |t|..]
  }

  lemma OverlaidNext<T>(s: seq<T>, d: nat, t: seq<T>, x: T)
    requires d + |t| < |s|
    ensures Overlaid(s, d, t)[d + |t| := x] == Overlaid(s, d, t + [x])
  {
  }

  lemma OverlaidAll<T>(s: seq<T>, t: seq<T>)
    requires |s| == |t|
    ensures Overlaid(s, 0, t) == t
  {
  }

  /** n elements of src from s on, to dest from d on. */
  method Copy<T>(dest: array<T>, d: nat, src: array<T>, s: nat, n: nat)
    requires dest != src && d + n <= dest.Length && s + n <= src.Length
    modifies dest
    ensures dest[..] == Overlaid(old(dest[..]), d, src[s..s + n])
  {
    ghost var was, from := dest[..], src[s..s + n];
    assert Overlaid(was, d, from[..0]) == was;
    for i := 0 to n
      invariant dest[..] == Overlaid(was, d, from[..i])
    {
      OverlaidNext(was, d, from[..i], from[i]);
      assert from[..i + 1] == from[..i] + [from[i]];
      dest[d + i] := src[s + i];
    }
    assert from[..n] == from;
  }

  /** The same from a value. */
  method Put<T>(dest: array<T>, d: nat, from: seq<T>)
    requires d + |from| <= dest.Length
    modifies dest
    ensures dest[..] == Overlaid(old(dest[..]), d, from)
  {
    ghost var was := dest[..];
    assert Overlaid(was, d, from[..0]) == was;
    for i := 0 to |from|
      invariant dest[..] == Overlaid(was, d, from[..i])
    {
      OverlaidNext(was, d, from[..i], from[i]);
      assert from[..i + 1] == from[..i] + [from[i]];
      dest[d + i] := from[i];
    }
    assert from[..|from|] == from;
  }
}

/** Joining a list of strings end to end, the operation that both the
    text extraction and the instruction block are built from. */
module Strings {

  /** The strings of `parts`, one after the other, with nothing in between. */
  function Concat(parts: seq<string>): string
  {
    if parts == [] then "" else Concat(parts[..|parts| - 1]) + parts[|parts| - 1]
  }

  /** Sum of the lengths of the strings in `parts`. */
  function TotalLength(parts: seq<string>): nat
  {
    if parts == [] then 0 else TotalLength(parts[..|parts| - 1]) + |parts[|parts| - 1]|
  }

  /** Joining two runs of parts is joining each run and then the results:
      no separator is ever inserted at a boundary. */
  lemma {:induction false} ConcatAppend(a: seq<string>, b: seq<string>)
    ensures Concat(a + b) == Concat(a) + Concat(b)
    decreases |b|
  {
    if b == [] {
      assert a + b == a;
    } else {
      var b' := b[..|b| - 1];
      assert (a + b)[..|a + b| - 1] == a + b';
      ConcatAppend(a, b');
    }
  }

  /** The joined text is exactly as long as all parts together. */
  lemma {:induction false} ConcatLength(parts: seq<string>)
    ensures |Concat(parts)| == TotalLength(parts)
    decreases |parts|
  {
    if parts != [] {
      ConcatLength(parts[..|parts| - 1]);
    }
  }

  /** Part `i` occurs in the joined text unchanged, starting right after
      the parts before it: parts keep their order and nothing is inserted
      between them. */
  lemma PartInPlace(parts: seq<string>, i: nat)
    requires i < |parts|
    ensures TotalLength(parts[..i]) + |parts[i]| <= |Concat(parts)|
    ensures Concat(parts)[TotalLength(parts[..i]) .. TotalLength(parts[..i]) + |parts[i]|] == parts[i]
  {
    var before, rest := parts[..i], parts[i + 1..];
    assert parts == before + [parts[i]] + rest;
    ConcatAppend(before + [parts[i]], rest);
    ConcatAppend(before, [parts[i]]);
    assert Concat([parts[i]]) == parts[i] by {
      assert [parts[i]][..0] == [];
    }
    ConcatLength(before);
  }

  /** Splitting a concatenation at the seam gives back its two halves. */
  lemma SplitAtSeam<T>(a: seq<T>, b: seq<T>)
    ensures (a + b)[..|a|] == a && (a + b)[|a|..] == b
  {
  }

  /** Seven pieces joined end to end: each piece is found unchanged at
      the sum of the lengths before it. */
  lemma SevenPiecesInPlace<T>(a: seq<T>, b: seq<T>, c: seq<T>, d: seq<T>, e: seq<T>, f: seq<T>, g: seq<T>)
    ensures var h := a + (b + (c + (d + (e + (f + g)))));
      var ob := |a|; var oc := ob + |b|; var od := oc + |c|; var oe := od + |d|;
      var of := oe + |e|; var og := of + |f|;
      && |h| == og + |g|
      && h[..ob] == a
      && h[ob..oc] == b
      && h[oc..od] == c
      && h[od..oe] == d
      && h[oe..of] == e
      && h[of..og] == f
      && h[og..] == g
  {
    var tf := f + g; var te := e + tf; var td := d + te; var tc := c + td; var tb := b + tc;
    SplitAtSeam(a, tb);
    SplitAtSeam(b, tc);
    SplitAtSeam(c, td);
    SplitAtSeam(d, te);
    SplitAtSeam(e, tf);
    SplitAtSeam(f, g);
  }

  /** A slice of a prefix is the same slice of the whole. */
  lemma PrefixSlice<T>(s: seq<T>, n: nat, i: nat, j: nat)
    requires i <= j <= n <= |s|
    ensures s[..n][i..j] == s[i..j]
  {
  }
}

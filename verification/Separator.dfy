/** Strings made of two parts with a separator between them. */
module Separator {

  /** Of two ways to read a string, the one that splits earlier has a separator in its second part. */
  lemma LaterSeparator(a: string, x: string, b: string, y: string, c: char)
    requires a + [c] + x == b + [c] + y && |a| < |b|
    ensures c in x
  {
    var k := |b| - |a| - 1;
    assert (a + [c] + x)[|b|] == x[k];
    assert (b + [c] + y)[|b|] == c;
  }

  lemma SameSplit(a: string, x: string, b: string, y: string, c: char)
    requires a + [c] + x == b + [c] + y && |a| == |b|
    ensures a == b && x == y
  {
    assert a == (a + [c] + x)[..|a|] && b == (b + [c] + y)[..|a|];
    assert x == (a + [c] + x)[|a| + 1..] && y == (b + [c] + y)[|a| + 1..];
  }
}

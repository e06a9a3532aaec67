/** Byte strings, their concatenation, and big-endian integers. */
module Bytes {
  type byte = b: int | 0 <= b < 0x100
  type Bytes = seq<byte>

  /** The address in a SOCKS5 message before it is printed; NoHost: the empty address of a fragment. */
  datatype Host = NoHost | V4(ip: Bytes) | Domain(name: Bytes) | V6(ip: Bytes)

  /** The bytes of an ASCII text. */
  function Text(s: string): (r: Bytes)
    ensures |r| == |s| && forall i :: 0 <= i < |s| ==> r[i] == s[i] as int % 256
  {
    seq(|s|, i requires 0 <= i < |s| => s[i] as int % 256)
  }

  function Flatten(chunks: seq<Bytes>): Bytes
  {
    if chunks == [] then [] else chunks[0] + Flatten(chunks[1..])
  }

  lemma {:induction false} FlattenAppend(a: seq<Bytes>, b: seq<Bytes>)
    ensures Flatten(a + b) == Flatten(a) + Flatten(b)
  {
    if a == [] {
      assert a + b == b;
    } else {
      assert (a + b)[0] == a[0] && (a + b)[1..] == a[1..] + b;
      FlattenAppend(a[1..], b);
    }
  }

  lemma Regroup(a: Bytes, b: Bytes, c: Bytes)
    ensures a + b + c == a + (b + c)
  {
  }

  lemma FourParts(a: Bytes, b: Bytes, c: Bytes, d: Bytes)
    ensures var s := a + b + c + d;
      && s[..|a|] == a && s[|a|..|a| + |b|] == b
      && s[|a| + |b|..|a| + |b| + |c|] == c && s[|a| + |b| + |c|..] == d
  {
  }

  lemma CutInFour(s: Bytes, i: nat, j: nat, k: nat)
    requires i <= j <= k <= |s|
    ensures s == s[..i] + s[i..j] + s[j..k] + s[k..]
  {
  }

  lemma SlicesJoin(s: Bytes, i: nat, j: nat, k: nat)
    requires i <= j <= k <= |s|
    ensures s[i..k] == s[i..j] + s[j..k]
  {
  }

  lemma SliceOfTake(s: Bytes, n: nat, i: nat, j: nat)
    requires i <= j <= n <= |s|
    ensures s[..n][i..j] == s[i..j]
  {
  }

  lemma SliceOfDrop(s: Bytes, n: nat, i: nat, j: nat)
    requires i <= j && n + j <= |s|
    ensures s[n..][i..j] == s[n + i..n + j]
  {
  }

  lemma DropOfDrop(s: Bytes, n: nat, i: nat)
    requires n + i <= |s|
    ensures s[n..][i..] == s[n + i..]
  {
  }

  lemma TakeAndDrop(s: Bytes, n: nat)
    requires n <= |s|
    ensures s[..n] + s[n..] == s
  {
  }

  lemma BehindConcat(a: Bytes, b: Bytes)
    ensures (a + b)[|a|..] == b
  {
  }

  lemma DropOfConcat(a: Bytes, b: Bytes, n: nat)
    requires n <= |a|
    ensures (a + b)[n..] == a[n..] + b
  {
  }

  lemma TakeOfConcat(a: Bytes, b: Bytes, n: nat)
    requires n <= |a + b|
    ensures (a + b)[..n] == if n <= |a| then a[..n] else a + b[..n - |a|]
  {
  }

  lemma FlattenSingleton(c: Bytes)
    ensures Flatten([c]) == c
  {
    assert Flatten([c]) == c + Flatten([]);
  }

  function Pow256(k: nat): nat
  {
    if k == 0 then 1 else 0x100 * Pow256(k - 1)
  }

  /** The k low-order bytes of n, most significant first. */
  function ToBigEndian(n: nat, k: nat): (r: Bytes)
    ensures |r| == k
  {
    if k == 0 then [] else ToBigEndian(n / 0x100, k - 1) + [n % 0x100]
  }

  function FromBigEndian(s: Bytes): nat
  {
    if s == [] then 0 else FromBigEndian(s[..|s| - 1]) * 0x100 + s[|s| - 1]
  }

  lemma {:induction false} BigEndianRoundTrip(n: nat, k: nat)
    requires n < Pow256(k)
    ensures FromBigEndian(ToBigEndian(n, k)) == n
  {
    if k > 0 {
      BigEndianRoundTrip(n / 0x100, k - 1);
      assert ToBigEndian(n, k)[..k - 1] == ToBigEndian(n / 0x100, k - 1);
    }
  }

  lemma BigEndianPair(s: Bytes)
    requires |s| == 2
    ensures FromBigEndian(s) == s[0] as int * 256 + s[1] as int
  {
    assert s[..1] == [s[0]] && [s[0]][..0] == [];
    assert FromBigEndian([s[0]]) == FromBigEndian([]) * 0x100 + s[0];
  }

  /** Eight bytes as a 64-bit integer, the first the most significant. */
  function Eight(s: Bytes): nat
    requires |s| == 8
  {
    ((((((s[0] as int * 256 + s[1] as int) * 256 + s[2] as int) * 256 + s[3] as int) * 256
      + s[4] as int) * 256 + s[5] as int) * 256 + s[6] as int) * 256 + s[7] as int
  }

  lemma OneByteMore(s: Bytes, k: nat)
    requires 0 < k <= |s|
    ensures FromBigEndian(s[..k]) == FromBigEndian(s[..k - 1]) * 0x100 + s[k - 1]
  {
    assert s[..k][..k - 1] == s[..k - 1];
  }

  lemma FirstFour(s: Bytes)
    requires |s| >= 4
    ensures FromBigEndian(s[..4]) == ((s[0] as int * 256 + s[1] as int) * 256 + s[2] as int) * 256 + s[3] as int
  {
    assert s[..0] == [];
    OneByteMore(s, 1);
    OneByteMore(s, 2);
    OneByteMore(s, 3);
    OneByteMore(s, 4);
  }

  lemma BigEndianEight(s: Bytes)
    requires |s| == 8
    ensures FromBigEndian(s) == Eight(s)
  {
    assert s[..8] == s;
    FirstFour(s);
    OneByteMore(s, 5);
    OneByteMore(s, 6);
    OneByteMore(s, 7);
    OneByteMore(s, 8);
  }

  lemma {:induction false} BigEndianRange(s: Bytes)
    ensures FromBigEndian(s) < Pow256(|s|)
    ensures ToBigEndian(FromBigEndian(s), |s|) == s
  {
    if s != [] {
      var init := s[..|s| - 1];
      BigEndianRange(init);
      assert FromBigEndian(s) / 0x100 == FromBigEndian(init);
      assert s == init + [s[|s| - 1]];
    }
  }
}

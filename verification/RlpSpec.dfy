/** Recursive Length Prefix encoding of item trees: Appendix B of the Ethereum Yellow Paper.

    `Encode` is the reference against which the one-pass encoder (`RlpEncBuf`), the streaming
    decoder (`RlpStream`) and the splitting decoder (`RlpRaw`) are proved. */
module RlpSpec {
  import opened Common

  datatype Item = Str(bytes: Bytes) | List(items: seq<Item>)

  /** Big-endian digits of `n` with no leading zero; empty for zero. */
  function BigEndian(n: nat): Bytes
  {
    if n == 0 then [] else BigEndian(n / 256) + [n % 256]
  }

  function FromBigEndian(b: Bytes): nat
  {
    if b == [] then 0 else FromBigEndian(b[..|b| - 1]) * 256 + b[|b| - 1]
  }

  /** The tag of a string (0x80, 0xB7) or a list (0xC0, 0xF7) of `size` content bytes. */
  function Header(small: Byte, large: Byte, size: nat): Bytes
    requires small <= 0xC0
  {
    if size < 56 then [small + size] else [(large + |BigEndian(size)|) % 256] + BigEndian(size)
  }

  function Encode(it: Item): Bytes
    decreases it, 0
  {
    match it
    case Str(b) => if |b| == 1 && b[0] < 0x80 then b else Header(0x80, 0xB7, |b|) + b
    case List(items) => Header(0xC0, 0xF7, |EncodeAll(items)|) + EncodeAll(items)
  }

  function EncodeAll(items: seq<Item>): Bytes
    decreases items
  {
    if items == [] then [] else Encode(items[0]) + EncodeAll(items[1..])
  }

  // ---------------------------------------------------------------- big-endian numbers

  lemma {:induction false} BigEndianInverse(n: nat)
    ensures FromBigEndian(BigEndian(n)) == n
    ensures n > 0 ==> BigEndian(n) != [] && BigEndian(n)[0] != 0
  {
    if n > 0 {
      BigEndianInverse(n / 256);
      var b := BigEndian(n);
      assert b[..|b| - 1] == BigEndian(n / 256);
    }
  }

  lemma {:induction false} FromBigEndianInverse(b: Bytes)
    requires b == [] || b[0] != 0
    ensures BigEndian(FromBigEndian(b)) == b
    ensures b != [] ==> FromBigEndian(b) > 0
  {
    if b != [] {
      var front := b[..|b| - 1];
      FromBigEndianInverse(front);
      assert b == front + [b[|b| - 1]];
      var v := FromBigEndian(front);
      assert FromBigEndian(b) / 256 == v && FromBigEndian(b) % 256 == b[|b| - 1];
      if front == [] { assert b[0] == b[|b| - 1]; }
    }
  }

  function Pow256(k: nat): (p: nat)
    ensures p > 0
  {
    if k == 0 then 1 else 256 * Pow256(k - 1)
  }

  /** `k` digits hold exactly the numbers below 256^k. */
  lemma {:induction false} BigEndianWidth(n: nat, k: nat)
    ensures |BigEndian(n)| <= k <==> n < Pow256(k)
  {
    if n > 0 && k > 0 {
      BigEndianWidth(n / 256, k - 1);
    }
  }

  lemma {:induction false} Pow256Eight()
    ensures Pow256(8) == TWO64
  {
  }

  lemma {:induction false} BigEndianFits(n: nat)
    requires n < TWO64
    ensures |BigEndian(n)| <= 8
  {
    Pow256Eight();
    BigEndianWidth(n, 8);
  }

  // ---------------------------------------------------------------- headers

  lemma {:induction false} HeaderShape(small: Byte, large: Byte, size: nat)
    requires (small == 0x80 && large == 0xB7) || (small == 0xC0 && large == 0xF7)
    requires size < TWO64
    ensures var h := Header(small, large, size);
            && 1 <= |h| <= 9
            && (size < 56 ==> h == [small + size])
            && (size >= 56 ==> 2 <= |h| && h[0] == large + (|h| - 1) && h[1..] == BigEndian(size) && h[1] != 0)
  {
    BigEndianFits(size);
    BigEndianInverse(size);
  }

  /** A header determines its size and where the content starts. */
  lemma {:induction false} HeaderPrefixFree(small: Byte, large: Byte, m: nat, x: Bytes, n: nat, y: Bytes)
    requires (small == 0x80 && large == 0xB7) || (small == 0xC0 && large == 0xF7)
    requires m < TWO64 && n < TWO64
    requires Header(small, large, m) + x == Header(small, large, n) + y
    ensures m == n && x == y
  {
    HeaderShape(small, large, m);
    HeaderShape(small, large, n);
    var hm, hn := Header(small, large, m), Header(small, large, n);
    assert hm[0] == (hm + x)[0] == (hn + y)[0] == hn[0];
    assert |hm| == |hn|;
    assert hm == (hm + x)[..|hm|] == (hn + y)[..|hn|] == hn;
    assert x == (hm + x)[|hm|..] == (hn + y)[|hn|..] == y;
    if m >= 56 {
      BigEndianInverse(m);
      BigEndianInverse(n);
    }
  }

  // ---------------------------------------------------------------- unique parsing

  lemma {:induction false} EncodeShape(it: Item)
    requires |Encode(it)| < TWO64
    ensures |Encode(it)| >= 1
    ensures it.List? <==> Encode(it)[0] >= 0xC0
    ensures it.Str? && |it.bytes| == 1 && it.bytes[0] < 0x80 <==> Encode(it)[0] < 0x80
  {
    match it
    case Str(b) =>
      if !(|b| == 1 && b[0] < 0x80) { HeaderShape(0x80, 0xB7, |b|); }
    case List(items) =>
      HeaderShape(0xC0, 0xF7, |EncodeAll(items)|);
  }

  /** Equal concatenations whose first parts have the same length agree part by part. */
  lemma {:induction false} SplitEqual(a: Bytes, x: Bytes, b: Bytes, y: Bytes)
    requires a + x == b + y && |a| == |b|
    ensures a == b && x == y
  {
    assert a == (a + x)[..|a|] && b == (b + y)[..|b|];
    assert x == (a + x)[|a|..] && y == (b + y)[|b|..];
  }

  lemma {:induction false} PayloadEqual(small: Byte, large: Byte, p: Bytes, x: Bytes, q: Bytes, y: Bytes)
    requires (small == 0x80 && large == 0xB7) || (small == 0xC0 && large == 0xF7)
    requires |p| < TWO64 && |q| < TWO64
    requires Header(small, large, |p|) + p + x == Header(small, large, |q|) + q + y
    ensures p == q && x == y
  {
    var hp, hq := Header(small, large, |p|), Header(small, large, |q|);
    assert hp + p + x == hp + (p + x) && hq + q + y == hq + (q + y);
    HeaderPrefixFree(small, large, |p|, p + x, |q|, q + y);
    SplitEqual(p, x, q, y);
  }

  /** No encoding is a proper prefix of another, so the items of a byte stream are determined. */
  lemma {:induction false} EncodePrefixFree(a: Item, x: Bytes, b: Item, y: Bytes)
    requires |Encode(a)| < TWO64 && |Encode(b)| < TWO64
    requires Encode(a) + x == Encode(b) + y
    ensures a == b && x == y
    decreases a, 0
  {
    EncodeShape(a);
    EncodeShape(b);
    assert Encode(a)[0] == (Encode(a) + x)[0] == (Encode(b) + y)[0] == Encode(b)[0];
    match a
    case Str(p) =>
      if |p| == 1 && p[0] < 0x80 {
        SplitEqual(p, x, b.bytes, y);
      } else {
        PayloadEqual(0x80, 0xB7, p, x, b.bytes, y);
      }
    case List(ps) =>
      PayloadEqual(0xC0, 0xF7, EncodeAll(ps), x, EncodeAll(b.items), y);
      EncodeAllInjective(ps, b.items);
  }

  lemma {:induction false} EncodeAllInjective(xs: seq<Item>, ys: seq<Item>)
    requires EncodeAll(xs) == EncodeAll(ys) && |EncodeAll(xs)| < TWO64
    ensures xs == ys
    decreases xs
  {
    if xs != [] && ys != [] {
      EncodePrefixFree(xs[0], EncodeAll(xs[1..]), ys[0], EncodeAll(ys[1..]));
      EncodeAllInjective(xs[1..], ys[1..]);
      assert xs == [xs[0]] + xs[1..] && ys == [ys[0]] + ys[1..];
    } else if xs != [] {
      EncodeShape(xs[0]);
    } else if ys != [] {
      EncodeShape(ys[0]);
    }
  }

  lemma {:induction false} EncodeAllConcat(xs: seq<Item>, ys: seq<Item>)
    ensures EncodeAll(xs + ys) == EncodeAll(xs) + EncodeAll(ys)
  {
    if xs == [] {
      assert xs + ys == ys;
    } else {
      EncodeAllConcat(xs[1..], ys);
      assert (xs + ys)[1..] == xs[1..] + ys;
      Assoc(Encode(xs[0]), EncodeAll(xs[1..]), EncodeAll(ys));
    }
  }
}

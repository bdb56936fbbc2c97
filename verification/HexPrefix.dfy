/** Trie key encodings (trie/encoding.go): key bytes, hex nibbles with an optional terminator 16,
    and the compact "hex prefix" form of Appendix C of the Ethereum Yellow Paper. */
module HexPrefix {
  import opened Common

  const TERM: Byte := 16

  predicate HasTerm(s: Bytes) { |s| > 0 && s[|s| - 1] == TERM }

  /** Nibbles, with the terminator allowed only at the end. */
  ghost predicate ValidHex(h: Bytes)
  {
    forall i :: 0 <= i < |h| ==> h[i] < 16 || (h[i] == TERM && i == |h| - 1)
  }

  ghost predicate AllNibbles(h: Bytes)
  {
    forall i :: 0 <= i < |h| ==> h[i] < 16
  }

  /** The two nibbles of every byte. */
  function Nibbles(b: Bytes): (h: Bytes)
    ensures |h| == 2 * |b|
    ensures forall i :: 0 <= i < |b| ==> h[2 * i] == b[i] / 16 && h[2 * i + 1] == b[i] % 16
  {
    if b == [] then [] else Nibbles(b[..|b| - 1]) + [b[|b| - 1] / 16, b[|b| - 1] % 16]
  }

  function KeyHex(b: Bytes): Bytes
  {
    Nibbles(b) + [TERM]
  }

  /** Pairs of nibbles as bytes. */
  function Pack(h: Bytes): (b: Bytes)
    requires |h| % 2 == 0
    ensures |b| == |h| / 2
    ensures AllNibbles(h) ==> forall i :: 0 <= i < |b| ==> b[i] == 16 * h[2 * i] + h[2 * i + 1]
  {
    if h == [] then [] else
      Pack(h[..|h| - 2]) + [(16 * (h[|h| - 2] as int) + h[|h| - 1]) % 256]
  }

  function Untermed(h: Bytes): Bytes { if HasTerm(h) then h[..|h| - 1] else h }

  /** Compact form: a flag nibble (2 for terminated, plus 1 for odd), then the nibbles packed. */
  function Compact(h: Bytes): Bytes
  {
    var flag := if HasTerm(h) then 32 else 0;
    var body := Untermed(h);
    if |body| % 2 == 1 then [(16 + flag + body[0] as int) % 256] + Pack(body[1..]) else [flag] + Pack(body)
  }

  /** Source fails on the empty string, where the slice below would start past the end. */
  function CompactToHex(c: Bytes): Bytes
    requires c != []
  {
    var base := if KeyHex(c)[0] < 2 then Nibbles(c) else KeyHex(c);
    base[2 - base[0] % 2..]
  }

  /** Strings agreeing on every pair of positions, and on the last one if the length is odd. */
  lemma {:induction false} Halves(a: Bytes, b: Bytes)
    requires |a| == |b| && (|a| % 2 == 1 ==> a[|a| - 1] == b[|a| - 1])
    requires forall k :: 0 <= k < |a| / 2 ==> a[2 * k] == b[2 * k] && a[2 * k + 1] == b[2 * k + 1]
    ensures a == b
  {
    forall i | 0 <= i < |a| ensures a[i] == b[i] {
      var k := i / 2;
      assert i == 2 * k || i == 2 * k + 1;
      if k < |a| / 2 { assert a[2 * k] == b[2 * k] && a[2 * k + 1] == b[2 * k + 1]; }
    }
  }

  // ---------------------------------------------------------------- buffers filled in loops

  method KeybytesToHex(str: Bytes) returns (nibbles: array<Byte>)
    ensures fresh(nibbles) && nibbles[..] == KeyHex(str)
  {
    var l := |str| * 2 + 1;
    nibbles := new Byte[l];
    for i := 0 to |str|
      invariant forall k :: 0 <= k < i ==> nibbles[2 * k] == str[k] / 16 && nibbles[2 * k + 1] == str[k] % 16
    {
      nibbles[i * 2] := str[i] / 16;
      nibbles[i * 2 + 1] := str[i] % 16;
    }
    nibbles[l - 1] := TERM;
    ghost var out, want := nibbles[..], KeyHex(str);
    forall k | 0 <= k < l / 2 ensures out[2 * k] == want[2 * k] && out[2 * k + 1] == want[2 * k + 1] {
      assert nibbles[2 * k] == str[k] / 16 && nibbles[2 * k + 1] == str[k] % 16;
    }
    Halves(out, want);
  }

  /** Packs `nibbles` into `bytes` from index `from` on. */
  method DecodeNibbles(nibbles: Bytes, bytes: array<Byte>, from: nat)
    requires |nibbles| % 2 == 0 && AllNibbles(nibbles) && bytes.Length == from + |nibbles| / 2
    modifies bytes
    ensures bytes[..from] == old(bytes[..from]) && bytes[from..] == Pack(nibbles)
  {
    var bi, ni := 0, 0;
    while ni < |nibbles|
      invariant ni == 2 * bi && 0 <= ni <= |nibbles|
      invariant forall k :: 0 <= k < from ==> bytes[k] == old(bytes[k])
      invariant forall k :: 0 <= k < bi ==> bytes[from + k] == 16 * nibbles[2 * k] + nibbles[2 * k + 1]
    {
      bytes[from + bi] := nibbles[ni] * 16 + nibbles[ni + 1];
      bi, ni := bi + 1, ni + 2;
    }
  }

  method HexToCompact(hex: Bytes) returns (buf: array<Byte>)
    requires ValidHex(hex)
    ensures fresh(buf) && buf[..] == Compact(hex)
  {
    hide Compact, ValidHex, AllNibbles;
    CompactParts(hex);
    var terminator, rest := 0, hex;
    if HasTerm(hex) {
      terminator := 1;
      rest := hex[..|hex| - 1];
    }
    buf := new Byte[|rest| / 2 + 1];
    buf[0] := terminator * 32;
    if |rest| % 2 == 1 {
      buf[0] := buf[0] + 16 + rest[0];
      rest := rest[1..];
    }
    Fill(hex, rest, buf);
  }

  /** The part after the flag byte. */
  method Fill(ghost hex: Bytes, rest: Bytes, buf: array<Byte>)
    requires |rest| % 2 == 0 && AllNibbles(rest) && buf.Length == 1 + |rest| / 2
    requires Compact(hex) == [buf[0]] + Pack(rest)
    modifies buf
    ensures buf[..] == Compact(hex)
  {
    hide Pack, Compact, AllNibbles;
    ghost var first := buf[0];
    DecodeNibbles(rest, buf, 1);
    Joined(buf[..], first, Pack(rest));
  }

  lemma {:induction false} Joined(s: Bytes, first: Byte, rest: Bytes)
    requires |s| == 1 + |rest| && s[..1] == [first] && s[1..] == rest
    ensures s == [first] + rest
  {
    assert s == s[..1] + s[1..];
  }

  lemma {:induction false} CompactParts(h: Bytes)
    requires ValidHex(h)
    ensures var body, flag := Untermed(h), if HasTerm(h) then 32 else 0;
            && AllNibbles(body)
            && (|body| % 2 == 1 ==> body[0] < 16 && AllNibbles(body[1..]) && Compact(h) == [16 + flag + body[0] as int] + Pack(body[1..]))
            && (|body| % 2 == 0 ==> Compact(h) == [flag] + Pack(body))
  {
    hide Pack;
  }

  /** Length of the common prefix: maximal, so the strings differ right after it. */
  method PrefixLen(a: Bytes, b: Bytes) returns (i: nat)
    ensures i == |CommonPrefix(a, b)|
  {
    var length := if |b| < |a| then |b| else |a|;
    i := 0;
    while i < length
      invariant 0 <= i <= length && a[..i] == b[..i]
    {
      if a[i] != b[i] {
        break;
      }
      i := i + 1;
    }
    CommonPrefixUnique(a, b, i);
  }

  function CommonPrefix(a: Bytes, b: Bytes): (p: Bytes)
    ensures p <= a && p <= b
    ensures |p| < |a| && |p| < |b| ==> a[|p|] != b[|p|]
  {
    if a == [] || b == [] || a[0] != b[0] then [] else [a[0]] + CommonPrefix(a[1..], b[1..])
  }

  lemma {:induction false} CommonPrefixUnique(a: Bytes, b: Bytes, i: nat)
    requires i <= |a| && i <= |b| && a[..i] == b[..i] && (i < |a| && i < |b| ==> a[i] != b[i])
    ensures |CommonPrefix(a, b)| == i
  {
  }

  // ---------------------------------------------------------------- round trips

  lemma {:induction false} NibblesOfPack(h: Bytes)
    requires |h| % 2 == 0 && AllNibbles(h)
    ensures Nibbles(Pack(h)) == h
  {
    hide Pack, Nibbles;
    var b := Pack(h);
    forall k | 0 <= k < |h| / 2 ensures Nibbles(b)[2 * k] == h[2 * k] && Nibbles(b)[2 * k + 1] == h[2 * k + 1] {
      assert b[k] == 16 * (h[2 * k] as int) + h[2 * k + 1];
    }
    Halves(Nibbles(b), h);
  }

  lemma {:induction false} NibblesCons(x: Byte, b: Bytes)
    ensures Nibbles([x] + b) == [x / 16, x % 16] + Nibbles(b)
  {
    var l, r := Nibbles([x] + b), [x / 16, x % 16] + Nibbles(b);
    forall k | 0 <= k < |l| ensures l[k] == r[k] {
      var i := k / 2;
      assert k == 2 * i || k == 2 * i + 1;
      assert l[2 * i] == ([x] + b)[i] / 16 && l[2 * i + 1] == ([x] + b)[i] % 16;
      if i > 0 {
        assert ([x] + b)[i] == b[i - 1];
        assert r[k] == Nibbles(b)[k - 2];
        assert Nibbles(b)[2 * (i - 1)] == b[i - 1] / 16;
      }
    }
  }

  /** Compact encoding is inverted for every nibble string, with or without terminator. */
  lemma {:induction false} CompactRoundTrip(h: Bytes)
    requires ValidHex(h)
    ensures CompactToHex(Compact(h)) == h
  {
    hide Pack, Nibbles, Compact, CompactToHex;
    var flag := if HasTerm(h) then 32 else 0;
    var body := Untermed(h);
    CompactParts(h);
    if |body| % 2 == 1 {
      CompactForm(h, flag + 16 + body[0] as int, body[1..]);
      assert body == [body[0]] + body[1..];
    } else {
      CompactForm(h, flag, body);
    }
  }

  lemma {:induction false} CompactForm(h: Bytes, first: int, tail: Bytes)
    requires ValidHex(h) && 0 <= first < 64 && |tail| % 2 == 0 && AllNibbles(tail)
    requires Compact(h) == [first] + Pack(tail)
    requires first / 16 == (if HasTerm(h) then 2 else 0) + |Untermed(h)| % 2
    requires Untermed(h) == (if |Untermed(h)| % 2 == 1 then [first % 16] else []) + tail
    ensures CompactToHex(Compact(h)) == h
  {
    hide Compact, Pack, Nibbles, ValidHex, AllNibbles;
    NibblesCons(first, Pack(tail));
    NibblesOfPack(tail);
    assert Nibbles(Compact(h)) == [first / 16, first % 16] + tail;
    Chop(first / 16, first % 16, tail, []);
    Chop(first / 16, first % 16, tail, [TERM]);
    assert KeyHex(Compact(h)) == [first / 16, first % 16] + tail + [TERM];
  }

  lemma {:induction false} Chop(x: Byte, y: Byte, tail: Bytes, end: Bytes)
    ensures ([x, y] + tail + end)[2..] == tail + end
    ensures ([x, y] + tail + end)[1..] == [y] + tail + end
    ensures [x, y] + tail + [] == [x, y] + tail
  {
  }

  /** Different nibble strings have different compact forms. */
  lemma {:induction false} CompactInjective(g: Bytes, h: Bytes)
    requires ValidHex(g) && ValidHex(h) && Compact(g) == Compact(h)
    ensures g == h
  {
    CompactRoundTrip(g);
    CompactRoundTrip(h);
  }

  lemma {:induction false} KeyHexValid(b: Bytes)
    ensures ValidHex(KeyHex(b)) && HasTerm(KeyHex(b)) && |KeyHex(b)| % 2 == 1
  {
    var h := KeyHex(b);
    forall i | 0 <= i < |h| - 1 ensures h[i] < 16 {
      var k := i / 2;
      assert i == 2 * k || i == 2 * k + 1;
      assert Nibbles(b)[2 * k] == b[k] / 16 && Nibbles(b)[2 * k + 1] == b[k] % 16;
    }
  }

  /** Key bytes are recovered from their nibbles. */
  lemma {:induction false} KeyHexInjective(a: Bytes, b: Bytes)
    requires KeyHex(a) == KeyHex(b)
    ensures a == b
  {
    assert |a| == |b|;
    forall i | 0 <= i < |a| ensures a[i] == b[i] {
      assert KeyHex(a)[2 * i] == a[i] / 16 && KeyHex(a)[2 * i + 1] == a[i] % 16;
      assert KeyHex(b)[2 * i] == b[i] / 16 && KeyHex(b)[2 * i + 1] == b[i] % 16;
    }
  }
}

/** Sparse bitset compression (common/bitutil/compress.go). */
module Bitset {
  import opened Common
  import opened Bits

  datatype DecodeError = MissingData | UnreferencedData | ExceededTarget | ZeroContent

  /** Decompressed bytes and how much input they took. */
  datatype Partial = Partial(out: seq<Octet>, size: nat)

  function Zeros(n: nat): seq<Octet> {
    seq(n, _ => 0)
  }

  /** The non-zero bytes, in order. */
  ghost function NonZero(d: seq<Octet>): seq<Octet> {
    if d == [] then [] else NonZero(d[..|d| - 1]) + if d[|d| - 1] != 0 then [d[|d| - 1]] else []
  }

  ghost predicate SetAt(d: seq<Octet>, i: nat) {
    i < |d| && d[i] != 0
  }

  ghost function MaskByte(d: seq<Octet>, k: nat): Octet {
    FromBits(SetAt(d, 8 * k), SetAt(d, 8 * k + 1), SetAt(d, 8 * k + 2), SetAt(d, 8 * k + 3),
             SetAt(d, 8 * k + 4), SetAt(d, 8 * k + 5), SetAt(d, 8 * k + 6), SetAt(d, 8 * k + 7))
  }

  /** One bit per byte, set for the non-zero ones. */
  ghost function Mask(d: seq<Octet>): (m: seq<Octet>)
    ensures |m| == (|d| + 7) / 8
  {
    seq((|d| + 7) / 8, k => if k >= 0 then MaskByte(d, k) else 0)
  }

  lemma {:induction false} MaskTest(d: seq<Octet>, i: nat)
    requires i < 8 * |Mask(d)|
    ensures Test(Mask(d), i) == SetAt(d, i)
  {
  }

  /** The mask is the only byte string of its length with its bits. */
  lemma {:induction false} MaskUnique(d: seq<Octet>, m: seq<Octet>)
    requires |m| == (|d| + 7) / 8 && forall i: nat :: i < 8 * |m| ==> Test(m, i) == SetAt(d, i)
    ensures m == Mask(d)
  {
    hide SetAt, TestByte, MaskByte;
    forall k | 0 <= k < |m|
      ensures m[k] == Mask(d)[k]
    {
      forall j: nat | j < 8
        ensures TestByte(m[k], j) == TestByte(Mask(d)[k], j)
      {
        var i := 8 * k + j;
        assert i / 8 == k && i % 8 == j;
        assert Test(m, i) == SetAt(d, i);
        MaskTest(d, i);
      }
      SameBits(m[k], Mask(d)[k]);
    }
  }

  // ---------------------------------------------------------------- encoding

  ghost function Encode(d: seq<Octet>): seq<Octet>
    decreases |d|
  {
    if |d| == 0 then []
    else if |d| == 1 then (if d[0] == 0 then [] else d)
    else if NonZero(d) == [] then [] else Encode(Mask(d)) + NonZero(d)
  }

  /** `bitsetEncodeBytes`. */
  method BitsetEncodeBytes(d: seq<Octet>) returns (r: seq<Octet>)
    ensures r == Encode(d)
    decreases |d|
  {
    hide SetAt, TestByte, Mask, Flag;
    if |d| == 0 {
      return [];
    }
    if |d| == 1 {
      return if d[0] == 0 then [] else d;
    }
    var bitset, bytes := Zeros((|d| + 7) / 8), [];
    ZerosTest((|d| + 7) / 8);
    for i := 0 to |d|
      invariant |bitset| == (|d| + 7) / 8 && bytes == NonZero(d[..i])
      invariant forall k: nat :: k < 8 * |bitset| ==> Test(bitset, k) == (k < i && SetAt(d, k))
    {
      assert d[..i + 1][..i] == d[..i];
      SetAtIs(d, i);
      if d[i] != 0 {
        SetTest(bitset, i);
        bytes := bytes + [d[i]];
        bitset := bitset[i / 8 := bitset[i / 8] | Flag(i % 8)];
      }
    }
    assert d[..|d|] == d;
    SetAtEnd(d);
    MaskUnique(d, bitset);
    if |bytes| == 0 {
      return [];
    }
    var head := BitsetEncodeBytes(bitset);
    return head + bytes;
  }

  lemma {:induction false} SetAtIs(d: seq<Octet>, i: nat)
    requires i < |d|
    ensures SetAt(d, i) == (d[i] != 0)
  {
  }

  lemma {:induction false} SetAtEnd(d: seq<Octet>)
    ensures forall i: nat :: SetAt(d, i) ==> i < |d|
  {
  }

  lemma {:induction false} ZerosTest(n: nat)
    ensures forall k: nat :: k < 8 * |Zeros(n)| ==> !Test(Zeros(n), k)
  {
  }

  lemma {:induction false} SetTest(s: seq<Octet>, i: nat)
    requires i < 8 * |s|
    ensures var t := s[i / 8 := s[i / 8] | Flag(i % 8)];
            forall k: nat :: k < 8 * |s| ==> Test(t, k) == (k == i || Test(s, k))
  {
  }

  // ---------------------------------------------------------------- decoding

  /** Distribute input bytes from `ptr` to the positions set among the first `i` bits. */
  ghost function Spread(bitset: seq<Octet>, data: seq<Octet>, ptr: nat, target: nat, i: nat): (r: Result<Partial, DecodeError>)
    requires i <= 8 * |bitset|
    ensures r.Ok? ==> |r.value.out| == target
  {
    if i == 0 then Ok(Partial(Zeros(target), ptr))
    else
      var before := Spread(bitset, data, ptr, target, i - 1);
      if before.Err? || !Test(bitset, i - 1) then before
      else if before.value.size >= |data| then Err(MissingData)
      else if i - 1 >= target then Err(ExceededTarget)
      else if data[before.value.size] == 0 then Err(ZeroContent)
      else Ok(Partial(before.value.out[i - 1 := data[before.value.size]], before.value.size + 1))
  }

  ghost function DecodePartial(data: seq<Octet>, target: nat): (r: Result<Partial, DecodeError>)
    ensures r.Ok? ==> |r.value.out| == target
    decreases target
  {
    if target == 0 then Ok(Partial([], 0))
    else if data == [] then Ok(Partial(Zeros(target), 0))
    else if target == 1 then Ok(Partial([data[0]], if data[0] != 0 then 1 else 0))
    else
      var bits := DecodePartial(data, (target + 7) / 8);
      if bits.Err? then bits else Spread(bits.value.out, data, bits.value.size, target, 8 * |bits.value.out|)
  }

  /** `bitsetDecodePartialBytes`. */
  method BitsetDecodePartialBytes(data: seq<Octet>, target: nat) returns (r: Result<Partial, DecodeError>)
    ensures r == DecodePartial(data, target)
    decreases target
  {
    hide TestByte;
    if target == 0 {
      return Ok(Partial([], 0));
    }
    var out := Zeros(target);
    if |data| == 0 {
      return Ok(Partial(out, 0));
    }
    if target == 1 {
      out := out[0 := data[0]];
      assert out == [data[0]];
      return Ok(Partial(out, if data[0] != 0 then 1 else 0));
    }
    var bits := BitsetDecodePartialBytes(data, (target + 7) / 8);
    if bits.Err? {
      return bits;
    }
    r := SpreadBytes(bits.value.out, data, bits.value.size, target);
  }

  /** The loop that fills the slots the bitset marks. */
  method SpreadBytes(bitset: seq<Octet>, data: seq<Octet>, start: nat, target: nat) returns (r: Result<Partial, DecodeError>)
    ensures r == Spread(bitset, data, start, target, 8 * |bitset|)
  {
    hide TestByte, Spread, Test;
    var out := Zeros(target);
    var ptr, i := start, 0;
    SpreadNone(bitset, data, start, target);
    while i < 8 * |bitset|
      invariant 0 <= i <= 8 * |bitset| && 0 <= ptr && Spread(bitset, data, start, target, i) == Ok(Partial(out, ptr))
    {
      SpreadStep(bitset, data, start, target, i);
      if Test(bitset, i) {
        if ptr >= |data| {
          Stuck(bitset, data, start, target, i + 1);
          return Err(MissingData);
        }
        if i >= |out| {
          Stuck(bitset, data, start, target, i + 1);
          return Err(ExceededTarget);
        }
        if data[ptr] == 0 {
          Stuck(bitset, data, start, target, i + 1);
          return Err(ZeroContent);
        }
        out := out[i := data[ptr]];
        ptr := ptr + 1;
      }
      i := i + 1;
    }
    return Ok(Partial(out, ptr));
  }

  lemma {:induction false} SpreadNone(bitset: seq<Octet>, data: seq<Octet>, ptr: nat, target: nat)
    ensures Spread(bitset, data, ptr, target, 0) == Ok(Partial(Zeros(target), ptr))
  {
  }

  lemma {:induction false} SpreadStep(bitset: seq<Octet>, data: seq<Octet>, ptr: nat, target: nat, i: nat)
    requires i < 8 * |bitset| && Spread(bitset, data, ptr, target, i).Ok?
    ensures var p := Spread(bitset, data, ptr, target, i).value;
            Spread(bitset, data, ptr, target, i + 1) ==
              if !Test(bitset, i) then Ok(p)
              else if p.size >= |data| then Err(MissingData)
              else if i >= target then Err(ExceededTarget)
              else if data[p.size] == 0 then Err(ZeroContent)
              else Ok(Partial(p.out[i := data[p.size]], p.size + 1))
  {
  }

  /** An error is final. */
  lemma {:induction false} Stuck(bitset: seq<Octet>, data: seq<Octet>, ptr: nat, target: nat, i: nat)
    requires i <= 8 * |bitset| && Spread(bitset, data, ptr, target, i).Err?
    ensures Spread(bitset, data, ptr, target, 8 * |bitset|) == Spread(bitset, data, ptr, target, i)
  {
    StuckAt(bitset, data, ptr, target, i, 8 * |bitset|);
  }

  lemma {:induction false} StuckAt(bitset: seq<Octet>, data: seq<Octet>, ptr: nat, target: nat, i: nat, j: nat)
    requires i <= j <= 8 * |bitset| && Spread(bitset, data, ptr, target, i).Err?
    ensures Spread(bitset, data, ptr, target, j) == Spread(bitset, data, ptr, target, i)
    decreases j
  {
    if i < j {
      StuckAt(bitset, data, ptr, target, i, j - 1);
    }
  }

  // ---------------------------------------------------------------- both directions

  lemma {:induction false} NonZeroConcat(a: seq<Octet>, b: seq<Octet>)
    ensures NonZero(a + b) == NonZero(a) + NonZero(b)
  {
    if b == [] {
      assert a + b == a;
    } else {
      NonZeroConcat(a, b[..|b| - 1]);
      assert (a + b)[..|a + b| - 1] == a + b[..|b| - 1];
    }
  }

  lemma {:induction false} NonZeroZeros(n: nat)
    ensures NonZero(Zeros(n)) == []
  {
    if n > 0 {
      NonZeroZeros(n - 1);
      assert Zeros(n)[..n - 1] == Zeros(n - 1);
    }
  }

  lemma {:induction false} NonZeroNone(d: seq<Octet>)
    requires NonZero(d) == []
    ensures d == Zeros(|d|)
  {
    if d != [] {
      NonZeroNone(d[..|d| - 1]);
    }
  }

  lemma {:induction false} NonZeroSome(d: seq<Octet>)
    requires NonZero(d) != []
    ensures exists i: nat :: SetAt(d, i)
  {
    if d[|d| - 1] != 0 {
      assert SetAt(d, |d| - 1);
    } else {
      NonZeroSome(d[..|d| - 1]);
      var i: nat :| SetAt(d[..|d| - 1], i);
      assert SetAt(d, i);
    }
  }

  lemma {:induction false} SetIsNonZero(d: seq<Octet>, i: nat)
    requires SetAt(d, i)
    ensures NonZero(d) != []
  {
    if i < |d| - 1 {
      SetIsNonZero(d[..|d| - 1], i);
    }
  }

  /** The mask of something non-zero is non-zero. */
  lemma {:induction false} MaskNonZero(d: seq<Octet>)
    requires NonZero(d) != []
    ensures NonZero(Mask(d)) != []
  {
    hide Mask, SetAt, TestByte;
    NonZeroSome(d);
    var i: nat :| SetAt(d, i);
    SetAtEnd(d);
    MaskTest(d, i);
    ZeroByte(Mask(d)[i / 8]);
    assert Mask(d)[i / 8] != 0;
    SetAtIs(Mask(d), i / 8);
    SetIsNonZero(Mask(d), i / 8);
  }

  /** Spreading the non-zero bytes over their own mask gives the data back. */
  lemma {:induction false} SpreadBack(d: seq<Octet>, data: seq<Octet>, ptr: nat, i: nat)
    requires i <= 8 * |Mask(d)| && ptr + |NonZero(d)| <= |data| && data[ptr..ptr + |NonZero(d)|] == NonZero(d)
    ensures var k := if i < |d| then i else |d|;
            Spread(Mask(d), data, ptr, |d|, i) == Ok(Partial(d[..k] + Zeros(|d| - k), ptr + |NonZero(d[..k])|))
  {
    hide Mask, SetAt, TestByte, Test, Spread;
    if i == 0 {
      SpreadNone(Mask(d), data, ptr, |d|);
      assert d[..0] + Zeros(|d|) == Zeros(|d|);
    } else {
      SpreadBack(d, data, ptr, i - 1);
      SpreadStep(Mask(d), data, ptr, |d|, i - 1);
      MaskTest(d, i - 1);
      if i <= |d| {
        SpreadBackStep(d, data, ptr, i - 1);
      } else {
        SetAtEnd(d);
      }
    }
  }

  lemma {:induction false} SpreadBackStep(d: seq<Octet>, data: seq<Octet>, ptr: nat, i: nat)
    requires i < |d| && ptr + |NonZero(d)| <= |data| && data[ptr..ptr + |NonZero(d)|] == NonZero(d)
    ensures SetAt(d, i) == (d[i] != 0)
    ensures d[i] == 0 ==> NonZero(d[..i + 1]) == NonZero(d[..i]) && d[..i] + Zeros(|d| - i) == d[..i + 1] + Zeros(|d| - i - 1)
    ensures d[i] != 0 ==>
              && |NonZero(d[..i + 1])| == |NonZero(d[..i])| + 1
              && ptr + |NonZero(d[..i])| < |data| && data[ptr + |NonZero(d[..i])|] == d[i]
              && (d[..i] + Zeros(|d| - i))[i := d[i]] == d[..i + 1] + Zeros(|d| - i - 1)
  {
    assert d[..i + 1][..i] == d[..i];
    var n := |NonZero(d[..i])|;
    if d[i] != 0 {
      assert d == d[..i + 1] + d[i + 1..];
      NonZeroConcat(d[..i + 1], d[i + 1..]);
      assert NonZero(d)[n] == d[i];
      assert data[ptr..ptr + |NonZero(d)|][n] == data[ptr + n];
    }
  }

  /** Decoding what was encoded, whatever follows, gives the data back and stops exactly after it. */
  lemma {:induction false} DecodeEncode(d: seq<Octet>, rest: seq<Octet>)
    requires NonZero(d) != [] || rest == []
    ensures DecodePartial(Encode(d) + rest, |d|) == Ok(Partial(d, |Encode(d)|))
    decreases |d|
  {
    hide Mask, Spread, Test, TestByte;
    var data := Encode(d) + rest;
    if NonZero(d) == [] {
      NonZeroNone(d);
      assert Encode(d) == [];
    } else if |d| > 1 {
      var m, z := Mask(d), NonZero(d);
      MaskNonZero(d);
      DecodeEncode(m, z + rest);
      Assoc(Encode(m), z, rest);
      assert data[|Encode(m)|..|Encode(m)| + |z|] == z;
      SpreadBack(d, data, |Encode(m)|, 8 * |m|);
      assert d[..|d|] + Zeros(0) == d && d[..|d|] == d;
    } else {
      assert d[..0] == [] && d[0] != 0 && d == [d[0]];
    }
  }

  /** What spreading accepts: bits within the target, non-zero bytes in order. */
  lemma {:induction false} SpreadExact(bitset: seq<Octet>, data: seq<Octet>, ptr: nat, target: nat, i: nat)
    requires i <= 8 * |bitset| && ptr <= |data| && Spread(bitset, data, ptr, target, i).Ok?
    ensures var p := Spread(bitset, data, ptr, target, i).value;
            && ptr <= p.size <= |data| && NonZero(p.out) == data[ptr..p.size]
            && (forall k: nat :: k < i ==> Test(bitset, k) == SetAt(p.out, k))
            && (forall k: nat :: k >= i ==> !SetAt(p.out, k))
  {
    hide Test, TestByte, Spread, SetAt;
    if i == 0 {
      SpreadNone(bitset, data, ptr, target);
      NonZeroZeros(target);
      forall k: nat
        ensures !SetAt(Zeros(target), k)
      {
        SetZero(target, k);
      }
    } else {
      SpreadPrevious(bitset, data, ptr, target, i);
      SpreadExact(bitset, data, ptr, target, i - 1);
      SpreadStep(bitset, data, ptr, target, i - 1);
      var q, p := Spread(bitset, data, ptr, target, i - 1).value, Spread(bitset, data, ptr, target, i).value;
      assert !SetAt(q.out, i - 1);
      if Test(bitset, i - 1) {
        Filled(q.out, i - 1, data, ptr, q.size);
        assert p == Partial(q.out[i - 1 := data[q.size]], q.size + 1);
        forall k: nat
          ensures SetAt(p.out, k) == (k == i - 1 || SetAt(q.out, k))
        {
        }
      } else {
        assert p == q;
      }
    }
  }

  lemma {:induction false} SpreadPrevious(bitset: seq<Octet>, data: seq<Octet>, ptr: nat, target: nat, i: nat)
    requires 0 < i <= 8 * |bitset| && Spread(bitset, data, ptr, target, i).Ok?
    ensures Spread(bitset, data, ptr, target, i - 1).Ok?
  {
  }

  /** Filling the next slot behind all non-zero ones. */
  lemma {:induction false} Filled(out: seq<Octet>, i: nat, data: seq<Octet>, ptr: nat, size: nat)
    requires i < |out| && ptr <= size < |data| && NonZero(out) == data[ptr..size] && data[size] != 0
    requires forall k: nat :: k >= i ==> !SetAt(out, k)
    ensures NonZero(out[i := data[size]]) == data[ptr..size + 1]
    ensures forall k: nat :: SetAt(out[i := data[size]], k) == (k == i || SetAt(out, k))
  {
    hide NonZero;
    var head, tail, b := out[..i], out[i + 1..], data[size];
    forall k | 0 <= k < |tail|
      ensures tail[k] == 0
    {
      assert !SetAt(out, i + 1 + k);
    }
    assert tail == Zeros(|tail|) && !SetAt(out, i);
    NonZeroZeros(|tail|);
    FilledAt(out, i, 0, tail);
    FilledAt(out, i, b, tail);
    assert out[i := 0] == out;
    assert data[ptr..size + 1] == data[ptr..size] + [b];
  }

  lemma {:induction false} FilledAt(out: seq<Octet>, i: nat, b: Octet, tail: seq<Octet>)
    requires i < |out| && tail == out[i + 1..] && NonZero(tail) == []
    ensures NonZero(out[i := b]) == NonZero(out[..i]) + if b != 0 then [b] else []
  {
    hide NonZero;
    var head := out[..i];
    assert out[i := b] == (head + [b]) + tail;
    NonZeroConcat(head + [b], tail);
    NonZeroConcat(head, [b]);
    NonZeroOne(b);
  }

  lemma {:induction false} NonZeroOne(b: Octet)
    ensures NonZero([b]) == if b != 0 then [b] else []
  {
  }

  /** Whatever the decoder accepts re-encodes to exactly the input it took. */
  lemma {:induction false} EncodeDecode(data: seq<Octet>, target: nat)
    requires DecodePartial(data, target).Ok?
    ensures var p := DecodePartial(data, target).value;
            p.size <= |data| && Encode(p.out) == data[..p.size]
    decreases target
  {
    hide Mask, Spread, Test, TestByte;
    if target == 0 {
    } else if data == [] {
      NonZeroZeros(target);
    } else if target == 1 {
      NonZeroOne(data[0]);
    } else {
      var bits := DecodePartial(data, (target + 7) / 8).value;
      EncodeDecode(data, (target + 7) / 8);
      var p := DecodePartial(data, target).value;
      SpreadExact(bits.out, data, bits.size, target, 8 * |bits.out|);
      MaskUnique(p.out, bits.out);
      EncodeSplit(p.out, data, bits.size, p.size);
    }
  }

  lemma {:induction false} EncodeSplit(out: seq<Octet>, data: seq<Octet>, mid: nat, size: nat)
    requires |out| > 1 && mid <= size <= |data| && Encode(Mask(out)) == data[..mid] && NonZero(out) == data[mid..size]
    ensures Encode(out) == data[..size]
  {
    hide Mask;
    assert data[..size] == data[..mid] + data[mid..size];
    if NonZero(out) == [] {
      NonZeroNone(out);
      MaskZero(|out|);
      NonZeroZeros(|Mask(out)|);
    }
  }

  lemma {:induction false} MaskZero(n: nat)
    ensures Mask(Zeros(n)) == Zeros((n + 7) / 8)
  {
  }

  lemma {:induction false} SetZero(n: nat, i: nat)
    ensures !SetAt(Zeros(n), i)
  {
  }

  // ---------------------------------------------------------------- the exported pair

  /** `bitsetDecodeBytes`: all input has to be used. */
  method BitsetDecodeBytes(data: seq<Octet>, target: nat) returns (r: Result<seq<Octet>, DecodeError>)
    ensures r.Ok? ==> |r.value| == target && Encode(r.value) == data
    ensures forall d :: |d| == target && Encode(d) == data ==> r == Ok(d)
  {
    hide Encode, DecodePartial;
    forall d | |d| == target && Encode(d) == data
      ensures DecodePartial(data, target) == Ok(Partial(d, |data|))
    {
      DecodeEncode(d, []);
      assert Encode(d) + [] == Encode(d);
    }
    var p := BitsetDecodePartialBytes(data, target);
    if p.Err? {
      return Err(p.error);
    }
    EncodeDecode(data, target);
    if p.value.size != |data| {
      return Err(UnreferencedData);
    }
    assert data[..|data|] == data;
    return Ok(p.value.out);
  }

  ghost function Compressed(d: seq<Octet>): seq<Octet> {
    if |Encode(d)| < |d| then Encode(d) else d
  }

  /** `CompressBytes`. */
  method CompressBytes(d: seq<Octet>) returns (r: seq<Octet>)
    ensures r == Compressed(d) && |r| <= |d|
  {
    hide Encode;
    var out := BitsetEncodeBytes(d);
    return if |out| < |d| then out else d;
  }

  /** `DecompressBytes`: the inverse of compression, for every input. */
  method DecompressBytes(data: seq<Octet>, target: nat) returns (r: Result<seq<Octet>, DecodeError>)
    ensures |data| > target ==> r == Err(ExceededTarget)
    ensures r.Ok? ==> |r.value| == target && (|data| < target ==> Compressed(r.value) == data)
    ensures forall d :: |d| == target && Compressed(d) == data ==> r == Ok(d)
  {
    hide Encode;
    if |data| > target {
      return Err(ExceededTarget);
    }
    if |data| == target {
      return Ok(data);
    }
    r := BitsetDecodeBytes(data, target);
  }
}

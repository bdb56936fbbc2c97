/** Executed nonces above a moving start, as a bit mask (core/nonces/nonce_set.go). */
module NonceSets {
  import opened Common
  import opened Bits
  import Bitset

  const TWO32 := 0x1_0000_0000

  datatype SearchResult = NotAllowedTooNew | NotContainedAndAllowed | Contained | NotAllowedTooOld

  datatype NonceError = NonceTooLow | NonceOverFlow | StartNonce

  /** The mask is as short as its highest set bit allows: bit `length - 1` is set and none above it. */
  ghost predicate Tight(mask: seq<Octet>, length: nat) {
    && |mask| == (length + 7) / 8
    && (length > 0 ==> Test(mask, length - 1))
    && forall i: nat :: length <= i < 8 * |mask| ==> !Test(mask, i)
  }

  /** Bit `i`, unset beyond the mask. */
  ghost predicate Bit(mask: seq<Octet>, i: nat) {
    i < 8 * |mask| && Test(mask, i)
  }

  // ---------------------------------------------------------------- adding

  lemma {:induction false} Extended(mask: seq<Octet>, n: nat)
    ensures forall i: nat :: Bit(mask + Bitset.Zeros(n), i) == Bit(mask, i)
  {
  }

  lemma {:induction false} Added(mask: seq<Octet>, length: nat, grown: seq<Octet>, b: nat)
    requires Tight(mask, length) && b < 8 * |grown| && (forall i: nat :: Bit(grown, i) == Bit(mask, i))
    requires |grown| == if b / 8 < |mask| then |mask| else b / 8 + 1
    ensures var t := grown[b / 8 := grown[b / 8] | Flag(b % 8)];
            && Tight(t, if b + 1 > length then b + 1 else length)
            && (forall i: nat :: Bit(t, i) == (i == b || Bit(mask, i)))
  {
    hide TestByte, Flag, Test;
    var t := grown[b / 8 := grown[b / 8] | Flag(b % 8)];
    Bitset.SetTest(grown, b);
    var n := if b + 1 > length then b + 1 else length;
    assert |t| == (n + 7) / 8;
    forall i: nat
      ensures Bit(t, i) == (i == b || Bit(mask, i))
    {
      assert Bit(grown, i) == Bit(mask, i);
    }
    forall i: nat | n <= i < 8 * |t|
      ensures !Test(t, i)
    {
      assert Bit(t, i) == (i == b || Bit(mask, i));
    }
    assert Bit(t, n - 1) == (n - 1 == b || Bit(mask, n - 1));
  }

  // ---------------------------------------------------------------- moving the start

  /** The mask without its first `n` bytes, moved left by `l` bits. */
  ghost function Moved(mask: seq<Octet>, n: nat, l: nat): (r: seq<Octet>)
    requires n <= |mask| && l < 8
    ensures |r| == |mask| - n
  {
    seq(|mask| - n, k => MovedByte(mask[n..], k, l))
  }

  ghost function MovedByte(s: seq<Octet>, k: int, l: nat): Octet
    requires l < 8
  {
    if 0 <= k < |s| then ShiftIn(s[k], if k + 1 < |s| then s[k + 1] else 0, l) else 0
  }

  lemma {:induction false} MovedBit(mask: seq<Octet>, n: nat, l: nat, i: nat)
    requires n <= |mask| && l < 8
    ensures Bit(Moved(mask, n, l), i) == Bit(mask, i + 8 * n + l)
  {
    hide TestByte, ShiftIn;
    var r := Moved(mask, n, l);
    if i < 8 * |r| {
      var k, j := i / 8, i % 8;
      var a, b := mask[n + k], if n + k + 1 < |mask| then mask[n + k + 1] else 0;
      assert r[k] == ShiftIn(a, b, l);
      TestShift(a, b, l, j);
      ZeroByte(0);
      var s := i + 8 * n + l;
      if j + l < 8 {
        assert s / 8 == n + k && s % 8 == j + l;
      } else {
        assert s / 8 == n + k + 1 && s % 8 == j + l - 8;
      }
    }
  }

  /** Without one zero byte at the end. */
  ghost function Trimmed(r: seq<Octet>): seq<Octet> {
    if r != [] && r[|r| - 1] == 0 then r[..|r| - 1] else r
  }

  /** After dropping `left` bits at most one byte at the end is superfluous. */
  lemma {:induction false} MovedTight(mask: seq<Octet>, length: nat, left: nat)
    requires Tight(mask, length) && 0 < left < length
    ensures left / 8 < |mask|
    ensures var t := Trimmed(Moved(mask, left / 8, left % 8));
            Tight(t, length - left) && forall i: nat :: Bit(t, i) == Bit(mask, i + left)
  {
    hide TestByte, Moved, Test;
    var n, l := left / 8, left % 8;
    var r := Moved(mask, n, l);
    assert |r| > 0 && 8 * n + l == left;
    var t := Trimmed(r);
    forall i: nat
      ensures Bit(r, i) == Bit(mask, i + left)
    {
      MovedBit(mask, n, l, i);
    }
    LastByte(r);
    forall i: nat
      ensures Bit(t, i) == Bit(mask, i + left)
    {
      assert Bit(r, i) == Bit(mask, i + left);
    }
    assert Bit(t, length - left - 1) == Bit(mask, length - 1);
    forall i: nat | length - left <= i
      ensures !Bit(t, i)
    {
      assert Bit(t, i) == Bit(mask, i + left);
    }
    TrimmedLength(r, t, length - left, |mask| - n, l);
    forall i: nat | length - left <= i < 8 * |t|
      ensures !Test(t, i)
    {
      assert !Bit(t, i);
    }
  }

  /** Cutting a zero byte off the end changes no bit; a non-zero one has a bit. */
  lemma {:induction false} LastByte(r: seq<Octet>)
    requires r != []
    ensures r[|r| - 1] == 0 ==> forall i: nat :: Bit(r[..|r| - 1], i) == Bit(r, i)
    ensures r[|r| - 1] != 0 ==> exists i: nat :: i >= 8 * (|r| - 1) && Bit(r, i)
  {
    hide TestByte;
    ZeroByte(r[|r| - 1]);
    if r[|r| - 1] == 0 {
      forall i: nat
        ensures Bit(r[..|r| - 1], i) == Bit(r, i)
      {
      }
    } else {
      var j: nat :| j < 8 && TestByte(r[|r| - 1], j);
      var i := 8 * (|r| - 1) + j;
      assert i / 8 == |r| - 1 && i % 8 == j;
      assert Bit(r, i);
    }
  }

  lemma {:induction false} TrimmedLength(r: seq<Octet>, t: seq<Octet>, length: nat, m: nat, l: nat)
    requires |r| == m && r != [] && length > 0 && l < 8 && m == (length + l + 7) / 8
    requires t == Trimmed(r)
    requires Bit(t, length - 1) && forall i: nat :: length <= i ==> !Bit(t, i)
    ensures |t| == (length + 7) / 8
  {
    hide TestByte;
    LastByte(r);
    if r[|r| - 1] != 0 {
      var i: nat :| i >= 8 * (|r| - 1) && Bit(r, i);
      assert i < length;
    }
  }

  class NonceSet {
    var start: nat
    var bitMask: seq<Octet>
    var length: nat
    /** Every nonce that was ever new to the set. */
    ghost var accepted: set<nat>

    ghost predicate Valid()
      reads this
    {
      && Tight(bitMask, length) && length < TWO32 && start + length < TWO64
      && forall n :: n in accepted ==> n < start || Has(n)
    }

    /** The set represented: the nonces from `start` whose bit is set. */
    ghost predicate Has(nonce: nat)
      reads this
    {
      nonce >= start && Bit(bitMask, nonce - start)
    }

    constructor (start: nat)
      requires start < TWO64
      ensures Valid() && this.start == start && accepted == {} && forall n: nat :: !Has(n)
    {
      this.start, bitMask, length, accepted := start, [], 0, {};
    }

    /** `NextNonce`: one above the greatest member, or the start. */
    method NextNonce() returns (n: nat)
      requires Valid()
      ensures n >= start && (forall m: nat :: Has(m) ==> m < n) && (n > start ==> Has(n - 1))
    {
      hide TestByte, Test;
      n := start + length;
      assert length > 0 ==> Bit(bitMask, length - 1);
    }

    /** `Add`. */
    method Add(nonce: nat, maxLength: nat) returns (err: Option<NonceError>, changed: bool)
      requires Valid() && start + maxLength < TWO64 && maxLength < TWO32
      modifies this`bitMask, this`length, this`accepted
      ensures Valid()
      ensures err == if nonce < start then Some(NonceTooLow) else if nonce >= start + maxLength then Some(NonceOverFlow) else None
      ensures changed <==> err.None? && !old(Has(nonce))
      ensures forall n: nat :: Has(n) <==> old(Has(n)) || (err.None? && n == nonce)
      ensures accepted == old(accepted) + (if changed then {nonce} else {}) && (changed ==> nonce !in old(accepted))
    {
      hide TestByte, Flag, Test, Tight;
      if nonce < start {
        return Some(NonceTooLow), false;
      }
      if nonce >= start + maxLength {
        return Some(NonceOverFlow), false;
      }
      var b := nonce - start;
      var grown := bitMask;
      if b / 8 >= |bitMask| {
        grown := bitMask + Bitset.Zeros(b / 8 - |bitMask| + 1);
        Extended(bitMask, b / 8 - |bitMask| + 1);
      }
      Tested(grown, b);
      Added(bitMask, length, grown, b);
      changed := grown[b / 8] & Flag(b % 8) == 0;
      bitMask := grown[b / 8 := grown[b / 8] | Flag(b % 8)];
      assert old(Bit(bitMask, b)) == Bit(grown, b);
      if b + 1 > length {
        length := (b + 1) % TWO32;
      }
      err := None;
      if changed {
        accepted := accepted + {nonce};
      }
    }

    /** `Search`. */
    method Search(nonce: nat, maxLength: nat) returns (r: SearchResult)
      requires Valid() && start + maxLength < TWO64
      ensures r == if nonce < start then NotAllowedTooOld else if nonce >= start + maxLength then NotAllowedTooNew
                   else if Has(nonce) then Contained else NotContainedAndAllowed
    {
      hide TestByte;
      if nonce < start {
        return NotAllowedTooOld;
      }
      if nonce >= start + maxLength {
        return NotAllowedTooNew;
      }
      if nonce >= start + length {
        return NotContainedAndAllowed;
      }
      var b := nonce - start;
      Tested(bitMask, b);
      return if bitMask[b / 8] & Flag(b % 8) > 0 then Contained else NotContainedAndAllowed;
    }

    /** `Reset`: members below the new start are forgotten, the others stay. */
    method Reset(newStart: nat) returns (err: Option<NonceError>, changed: bool)
      requires Valid() && newStart < TWO64
      modifies this`start, this`bitMask, this`length
      ensures Valid() && err == if newStart < old(start) then Some(StartNonce) else None
      ensures err.Some? ==> start == old(start) && !changed && forall n: nat :: Has(n) <==> old(Has(n))
      ensures err.None? ==> start == newStart && (changed <==> newStart > old(start))
      ensures err.None? ==> forall n: nat :: Has(n) <==> old(Has(n)) && n >= newStart
    {
      hide TestByte, Test, Moved, Tight, Bit;
      if newStart < start {
        return Some(StartNonce), false;
      }
      if newStart == start {
        return None, false;
      }
      if newStart >= start + length {
        NoBits(bitMask, length);
        TightEmpty();
        start, bitMask, length := newStart, [], 0;
        return None, true;
      }
      var left := newStart - start;
      MovedTight(bitMask, length, left);
      start := newStart;
      length := length - left;
      bitMask := Shift(bitMask, left / 8, left % 8);
      if bitMask[|bitMask| - 1] == 0 {
        bitMask := bitMask[..|bitMask| - 1];
      }
      err, changed := None, true;
      forall n: nat
        ensures Has(n) <==> old(Has(n)) && n >= newStart
      {
        if n >= newStart {
          assert Bit(bitMask, n - newStart) == Bit(old(bitMask), n - newStart + left);
        }
      }
    }
  }

  lemma {:induction false} TightEmpty()
    ensures Tight([], 0) && forall i: nat :: !Bit([], i)
  {
  }

  /** The left shift, byte by byte in place. */
  method Shift(mask: seq<Octet>, n: nat, l: nat) returns (r: seq<Octet>)
    requires n < |mask| && l < 8
    ensures r == Moved(mask, n, l)
  {
    hide Shl, Shr;
    r := mask[n..];
    for i := 0 to |r|
      invariant |r| == |mask| - n
      invariant forall k :: 0 <= k < i ==> r[k] == MovedByte(mask[n..], k, l)
      invariant forall k :: i <= k < |r| ==> r[k] == mask[n..][k]
    {
      var b := Shl(r[i], l);
      if i + 1 < |r| {
        b := b | Shr(r[i + 1], 8 - l);
      } else {
        ShiftedLast(r[i], l);
      }
      r := r[i := b];
    }
  }

  lemma {:induction false} ShiftedLast(a: Octet, l: nat)
    requires l < 8
    ensures Shl(a, l) == ShiftIn(a, 0, l)
  {
  }

  lemma {:induction false} Tested(s: seq<Octet>, b: nat)
    requires b < 8 * |s|
    ensures Bit(s, b) == (s[b / 8] & Flag(b % 8) != 0)
  {
  }

  lemma {:induction false} NoBits(mask: seq<Octet>, length: nat)
    requires Tight(mask, length)
    ensures forall i: nat :: i >= length ==> !Bit(mask, i)
  {
  }
}

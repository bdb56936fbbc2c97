/** Byte strings as bit strings, most significant bit first. */
module Bits {

  type Octet = bv8

  /** The mask of bit `j` of a byte. */
  function Flag(j: nat): Octet
    requires j < 8
  {
    0x80 >> j
  }

  predicate TestByte(b: Octet, j: nat)
    requires j < 8
  {
    b & Flag(j) != 0
  }

  /** Whether bit `i` of a byte string is set. */
  predicate Test(s: seq<Octet>, i: nat)
    requires i < 8 * |s|
  {
    TestByte(s[i / 8], i % 8)
  }

  /** A byte from its eight bits. */
  function FromBits(b0: bool, b1: bool, b2: bool, b3: bool, b4: bool, b5: bool, b6: bool, b7: bool): Octet {
    (if b0 then 0x80 else 0) | (if b1 then 0x40 else 0) | (if b2 then 0x20 else 0) | (if b3 then 0x10 else 0) |
    (if b4 then 0x08 else 0) | (if b5 then 0x04 else 0) | (if b6 then 0x02 else 0) | (if b7 then 0x01 else 0)
  }

  /** A byte is determined by its bits. */
  lemma {:induction false} ByteFromBits(b: Octet)
    ensures b == FromBits(TestByte(b, 0), TestByte(b, 1), TestByte(b, 2), TestByte(b, 3),
                          TestByte(b, 4), TestByte(b, 5), TestByte(b, 6), TestByte(b, 7))
  {
  }

  lemma {:induction false} SameBits(a: Octet, b: Octet)
    requires forall j: nat :: j < 8 ==> TestByte(a, j) == TestByte(b, j)
    ensures a == b
  {
    hide FromBits;
    ByteFromBits(a);
    ByteFromBits(b);
  }

  lemma {:induction false} ZeroByte(b: Octet)
    ensures b == 0 <==> forall j: nat :: j < 8 ==> !TestByte(b, j)
  {
    if forall j: nat :: j < 8 ==> !TestByte(b, j) {
      ByteFromBits(b);
    }
  }

  /** A byte of a bit string moved left by `l` bits, the next byte moving in. */
  function ShiftIn(a: Octet, b: Octet, l: nat): Octet
    requires l < 8
  {
    Shl(a, l) | Shr(b, 8 - l)
  }

  function Shl(a: Octet, l: nat): Octet
    requires l < 8
  {
    a << l
  }

  function Shr(b: Octet, r: nat): Octet
    requires r <= 8
  {
    b >> r
  }

  lemma {:induction false} TestShift(a: Octet, b: Octet, l: nat, j: nat)
    requires l < 8 && j < 8
    ensures TestByte(ShiftIn(a, b, l), j) == if j + l < 8 then TestByte(a, j + l) else TestByte(b, j + l - 8)
  {
    hide TestByte, Flag, Shl, Shr;
    TestLeft(a, l, j);
    TestRight(b, 8 - l, j);
    TestOr(Shl(a, l), Shr(b, 8 - l), j);
  }

  lemma {:induction false} TestOr(x: Octet, y: Octet, j: nat)
    requires j < 8
    ensures TestByte(x | y, j) == (TestByte(x, j) || TestByte(y, j))
  {
  }

  lemma {:induction false} TestLeft(a: Octet, l: nat, j: nat)
    requires l < 8 && j < 8
    ensures TestByte(Shl(a, l), j) == (j + l < 8 && TestByte(a, j + l))
  {
    if l == 0 {
      assert Shl(a, 0) == a;
    } else {
      hide TestByte, Shl;
      LeftOnce(a, l);
      LeftBit(Shl(a, l - 1), j);
      if j < 7 {
        TestLeft(a, l - 1, j + 1);
      }
    }
  }

  lemma {:induction false} LeftBit(a: Octet, j: nat)
    requires j < 8
    ensures TestByte(a << 1, j) == (j < 7 && TestByte(a, j + 1))
  {
  }

  lemma {:induction false} LeftOnce(a: Octet, l: nat)
    requires 0 < l < 8
    ensures Shl(a, l) == Shl(a, l - 1) << 1
  {
    if l == 1 {
    } else if l == 2 {
    } else if l == 3 {
    } else if l == 4 {
    } else if l == 5 {
    } else if l == 6 {
    } else {
      assert l == 7;
    }
  }

  lemma {:induction false} TestRight(b: Octet, r: nat, j: nat)
    requires r <= 8 && j < 8
    ensures TestByte(Shr(b, r), j) == (j >= r && TestByte(b, j - r))
  {
    if r == 0 {
      assert Shr(b, 0) == b;
    } else {
      hide TestByte, Shr;
      RightOnce(b, r);
      RightBit(Shr(b, r - 1), j);
      if j > 0 {
        TestRight(b, r - 1, j - 1);
      }
    }
  }

  lemma {:induction false} RightBit(b: Octet, j: nat)
    requires j < 8
    ensures TestByte(b >> 1, j) == (j > 0 && TestByte(b, j - 1))
  {
  }

  lemma {:induction false} RightOnce(b: Octet, r: nat)
    requires 0 < r <= 8
    ensures Shr(b, r) == Shr(b, r - 1) >> 1
  {
    if r == 1 {
    } else if r == 2 {
    } else if r == 3 {
    } else if r == 4 {
    } else if r == 5 {
    } else if r == 6 {
    } else if r == 7 {
    } else {
      assert r == 8;
    }
  }
}

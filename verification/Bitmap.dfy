/** The 32-bit usage maps of slabs and tiny containers, with their meaning as sets. */
module Bitmap {

  function One(i: nat): bv32
    requires i < 32
  {
    1 << i
  }

  function And(b: bv32, c: bv32): bv32 {
    b & c
  }

  function Or(b: bv32, c: bv32): bv32 {
    b | c
  }

  function Xor(b: bv32, c: bv32): bv32 {
    b ^ c
  }

  /** The bits below a single bit. */
  function Low(o: bv32): bv32 {
    o - 1
  }

  predicate Bit(b: bv32, i: nat)
    requires i < 32
  {
    And(b, One(i)) != 0
  }

  ghost function Bits(b: bv32): set<nat> {
    set i: nat | i < 32 && Bit(b, i)
  }

  /** `FIND_NEXT_BIT` */
  function FindNextBit(b: bv32): bv32 {
    !b & (b + 1)
  }

  /** The map with the lowest `n` bits set, as the allocator computes it. */
  function Full(n: nat): bv32
    requires 0 < n <= 32
  {
    (2 << (n - 1)) - 1
  }

  ghost function Upto(n: nat): set<nat> {
    if n == 0 then {} else Upto(n - 1) + {n - 1}
  }

  lemma {:induction false} UptoIs(n: nat)
    ensures forall i: nat :: i in Upto(n) <==> i < n
  {
    if n > 0 {
      UptoIs(n - 1);
    }
  }

  // ---------------------------------------------------------------- words

  lemma Single(i: nat)
    requires i < 32
    ensures One(i) != 0 && And(One(i), Low(One(i))) == 0
    ensures i == 0 ==> Low(One(i)) == 0
    ensures i > 0 ==> Low(One(i)) == Or(Low(One(i - 1)), One(i - 1))
  {
    RawSingle(i);
    if i > 0 {
      RawNext(i);
    }
  }

  lemma RawSingle(i: nat)
    requires i < 32
    ensures One(i) != 0 && One(i) & (One(i) - 1) == 0
  {
  }

  lemma RawNext(i: nat)
    requires 0 < i < 32
    ensures One(i) - 1 == (One(i - 1) - 1) | One(i - 1)
  {
  }

  lemma OneApart(i: nat, j: nat)
    requires i < 32 && j < 32
    ensures And(One(i), One(j)) != 0 <==> i == j
  {
  }

  lemma OrAnd(b: bv32, c: bv32, o: bv32)
    ensures And(Or(b, c), o) != 0 <==> And(b, o) != 0 || And(c, o) != 0
  {
    hide And, Or;
    Distribute(b, c, o);
    OrZero(And(b, o), And(c, o));
  }

  lemma Distribute(b: bv32, c: bv32, o: bv32)
    ensures And(Or(b, c), o) == Or(And(b, o), And(c, o))
  {
  }

  lemma OrZero(b: bv32, c: bv32)
    ensures Or(b, c) == 0 <==> b == 0 && c == 0
  {
  }

  lemma XorSame(b: bv32, o: bv32)
    requires o != 0 && And(o, Low(o)) == 0
    ensures And(Xor(b, o), o) != 0 <==> And(b, o) == 0
  {
    RawXorSame(b, o);
  }

  lemma RawXorSame(b: bv32, o: bv32)
    requires o != 0 && o & (o - 1) == 0
    ensures (b ^ o) & o != 0 <==> b & o == 0
  {
  }

  lemma XorOther(b: bv32, c: bv32, o: bv32)
    requires And(c, o) == 0
    ensures And(Xor(b, c), o) == And(b, o)
  {
    RawXorOther(b, c, o);
  }

  lemma RawXorOther(b: bv32, c: bv32, o: bv32)
    requires c & o == 0
    ensures (b ^ c) & o == b & o
  {
  }

  lemma XorEqual(b: bv32, c: bv32, o: bv32)
    requires And(o, Low(o)) == 0 && (And(b, o) != 0 <==> And(c, o) != 0)
    ensures And(Xor(b, c), o) == 0
  {
    RawXorEqual(b, c, o);
  }

  lemma RawXorEqual(b: bv32, c: bv32, o: bv32)
    requires o & (o - 1) == 0 && (b & o != 0 <==> c & o != 0)
    ensures (b ^ c) & o == 0
  {
  }

  lemma IsolateZero(b: bv32, o: bv32)
    requires o != 0 && And(o, Low(o)) == 0 && And(b, Low(o)) == Low(o) && And(b, o) == 0
    ensures FindNextBit(b) == o
  {
    RawIsolateZero(b, o);
  }

  lemma RawIsolateZero(b: bv32, o: bv32)
    requires o != 0 && o & (o - 1) == 0 && b & (o - 1) == o - 1 && b & o == 0
    ensures !b & (b + 1) == o
  {
  }

  lemma WholeBit(b: bv32, o: bv32)
    requires And(b, o) != 0 && o != 0 && And(o, Low(o)) == 0
    ensures And(b, o) == o
  {
    RawWholeBit(b, o);
  }

  lemma RawWholeBit(b: bv32, o: bv32)
    requires b & o != 0 && o != 0 && o & (o - 1) == 0
    ensures b & o == o
  {
  }

  lemma SetNext(b: bv32, l: bv32, o: bv32)
    requires And(b, l) == l && And(b, o) == o
    ensures And(b, Or(l, o)) == Or(l, o)
  {
  }

  lemma ClearNext(x: bv32, l: bv32, o: bv32)
    requires And(x, l) == 0 && And(x, o) == 0
    ensures And(x, Or(l, o)) == 0
  {
    RawClearNext(x, l, o);
  }

  lemma RawClearNext(x: bv32, l: bv32, o: bv32)
    requires x & l == 0 && x & o == 0
    ensures x & (l | o) == 0
  {
  }

  lemma Ends(b: bv32)
    ensures And(b, 0) == 0 && And(0, b) == 0
    ensures And(b, Or(Low(One(31)), One(31))) == b
    ensures Or(Low(One(31)), One(31)) == 0xFFFF_FFFF
  {
    assert One(31) == 0x8000_0000;
  }

  lemma XorNone(b: bv32, c: bv32)
    requires Xor(b, c) == 0
    ensures b == c
  {
  }

  lemma FullOr(n: nat)
    requires 0 < n <= 32
    ensures Full(n) == Or(Low(One(n - 1)), One(n - 1))
  {
  }

  // ---------------------------------------------------------------- sets

  lemma OrBits(b: bv32, i: nat)
    requires i < 32
    ensures Bits(Or(b, One(i))) == Bits(b) + {i}
  {
    hide One, And, Or;
    forall j: nat | j < 32 ensures Bit(Or(b, One(i)), j) <==> Bit(b, j) || i == j {
      OneApart(i, j);
      OrAnd(b, One(i), One(j));
    }
  }

  lemma XorBits(b: bv32, i: nat)
    requires i < 32
    ensures Bits(Xor(b, One(i))) == if i in Bits(b) then Bits(b) - {i} else Bits(b) + {i}
  {
    hide One, And, Xor, Low;
    forall j: nat | j < 32 ensures Bit(Xor(b, One(i)), j) <==> Bit(b, j) != (i == j) {
      OneApart(i, j);
      Single(j);
      if i == j {
        XorSame(b, One(j));
      } else {
        XorOther(b, One(i), One(j));
      }
    }
  }

  /** `FIND_NEXT_BIT` yields the lowest clear bit. */
  lemma FindsClear(b: bv32) returns (i: nat)
    requires b != 0xFFFF_FFFF
    ensures i < 32 && FindNextBit(b) == One(i) && i !in Bits(b) && forall j: nat :: j < i ==> j in Bits(b)
  {
    hide One, And, Or, Low, FindNextBit;
    i := 0;
    Single(0);
    Ends(b);
    while Bit(b, i)
      invariant i < 32 && And(b, Low(One(i))) == Low(One(i)) && forall j: nat :: j < i ==> j in Bits(b)
      decreases 32 - i
    {
      Single(i);
      WholeBit(b, One(i));
      SetNext(b, Low(One(i)), One(i));
      if i < 31 {
        Single(i + 1);
      }
      i := i + 1;
    }
    Single(i);
    IsolateZero(b, One(i));
  }

  /** Maps with the same bits are the same. */
  lemma BitsInjective(b: bv32, c: bv32)
    requires Bits(b) == Bits(c)
    ensures b == c
  {
    hide One, And, Or, Low, Xor;
    var x, i := Xor(b, c), 0;
    Single(0);
    Ends(x);
    while i < 32
      invariant i <= 32 && And(x, if i < 32 then Low(One(i)) else Or(Low(One(31)), One(31))) == 0
    {
      assert i in Bits(b) <==> i in Bits(c);
      Single(i);
      XorEqual(b, c, One(i));
      ClearNext(x, Low(One(i)), One(i));
      if i < 31 {
        Single(i + 1);
      }
      i := i + 1;
    }
    XorNone(b, c);
  }

  lemma {:induction false} LowBits(n: nat)
    requires n < 32
    ensures Bits(Low(One(n))) == Upto(n)
  {
    hide One, And, Or, Low;
    Single(n);
    if n == 0 {
      NoBit();
    } else {
      LowBits(n - 1);
      OrBits(Low(One(n - 1)), n - 1);
    }
  }

  lemma NoBit()
    ensures Bits(0) == {}
  {
    hide One, And;
    forall i: nat | i < 32 ensures !Bit(0, i) {
      Ends(One(i));
    }
  }

  lemma FullIs(b: bv32, n: nat)
    requires 0 < n <= 32
    ensures b == Full(n) <==> Bits(b) == Upto(n)
  {
    hide One, And, Or, Low, Full, Bits;
    FullOr(n);
    LowBits(n - 1);
    OrBits(Low(One(n - 1)), n - 1);
    if Bits(b) == Upto(n) {
      BitsInjective(b, Full(n));
    }
  }

  lemma NoBits(b: bv32)
    ensures b == 0 <==> Bits(b) == {}
  {
    hide One, Bits;
    NoBit();
    if Bits(b) == {} {
      BitsInjective(b, 0);
    }
  }

  lemma OneBits(i: nat)
    requires i < 32
    ensures Bits(One(i)) == {i}
  {
    hide One, And;
    forall j: nat | j < 32 ensures Bit(One(i), j) <==> i == j {
      OneApart(i, j);
    }
  }

  /** `BIT_TO_INDEX` */
  method BitToIndex(n: bv32) returns (i: int)
    ensures i == -1 <==> n == 0
    ensures i != -1 ==> 0 <= i < 32 && i in Bits(n) && forall j: nat :: j < i ==> j !in Bits(n)
  {
    hide One, And;
    NoBits(n);
    i := 0;
    while i < 32
      invariant 0 <= i <= 32 && forall j: nat :: j < i ==> j !in Bits(n)
    {
      if Bit(n, i) {
        assert i in Bits(n);
        return;
      }
      i := i + 1;
    }
    assert Bits(n) == {};
    i := -1;
  }
}

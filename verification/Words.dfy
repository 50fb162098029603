/** 32-bit words and their bits, for the tid bitmap and the general one. */
module Words {
  /** A bit, counted from the lowest. */
  type Index = b: nat | b < 32

  function Mask(b: Index): bv32 {
    1 << b
  }

  predicate Bit(w: bv32, b: Index) {
    w & Mask(b) != 0
  }

  function SetBit(w: bv32, b: Index): bv32 {
    w | Mask(b)
  }

  function ClearBit(w: bv32, b: Index): bv32 {
    w & !Mask(b)
  }

  function Not(w: bv32): bv32 {
    !w
  }

  // ---- One bit -----------------------------------------------------------------------------

  lemma OneBit(b: Index, c: Index)
    ensures Mask(b) != 0
    ensures b != c ==> Mask(b) != Mask(c) && Mask(b) & Mask(c) == 0
  {
  }

  lemma PowerOfTwo(b: Index)
    ensures Mask(b) != 0 && Mask(b) & (Mask(b) - 1) == 0
  {
  }

  lemma SetMask(w: bv32, m: bv32, n: bv32)
    requires m != 0 && (m != n ==> m & n == 0)
    ensures (w | m) & n != 0 <==> m == n || w & n != 0
  {
  }

  lemma ClearMask(w: bv32, m: bv32, n: bv32)
    requires m != n ==> m & n == 0
    ensures (w & !m) & n != 0 <==> m != n && w & n != 0
  {
  }

  lemma NotMask(w: bv32, m: bv32)
    requires m != 0 && m & (m - 1) == 0
    ensures !w & m != 0 <==> w & m == 0
  {
  }

  // The masks are passed as variables, so that no proof has to reason about shifts and words at once.
  lemma BitsByMask(w: bv32, b: Index, c: Index, m: bv32, n: bv32)
    requires m == Mask(b) && n == Mask(c) && m != 0 && (b != c ==> m != n && m & n == 0)
    ensures Bit(SetBit(w, b), c) <==> c == b || Bit(w, c)
    ensures Bit(ClearBit(w, b), c) <==> c != b && Bit(w, c)
  {
    SetMask(w, m, n);
    ClearMask(w, m, n);
  }

  /** Setting or clearing one bit leaves every other bit alone. */
  lemma BitAfter(w: bv32, b: Index, c: Index)
    ensures Bit(SetBit(w, b), c) <==> c == b || Bit(w, c)
    ensures Bit(ClearBit(w, b), c) <==> c != b && Bit(w, c)
  {
    OneBit(b, c);
    BitsByMask(w, b, c, Mask(b), Mask(c));
  }

  lemma NotByMask(w: bv32, b: Index, m: bv32)
    requires m == Mask(b) && m != 0 && m & (m - 1) == 0
    ensures Bit(Not(w), b) <==> !Bit(w, b)
  {
    NotMask(w, m);
  }

  lemma BitNot(w: bv32, b: Index)
    ensures Bit(Not(w), b) <==> !Bit(w, b)
  {
    PowerOfTwo(b);
    NotByMask(w, b, Mask(b));
  }

  lemma NoBit(b: Index)
    ensures !Bit(0, b)
  {
  }

  // ---- A word without bits is zero ---------------------------------------------------------

  /** The masks once more, without shifts. */
  function Power(b: nat): bv32 {
    if b == 0 then 1 else Power(b - 1) + Power(b - 1)
  }

  lemma Doubled(b: Index)
    requires b < 31
    ensures Mask(b + 1) == Mask(b) + Mask(b)
  {
  }

  lemma {:induction false} MaskIsPower(b: Index)
    ensures Mask(b) == Power(b)
  {
    if b == 0 {
    } else {
      MaskIsPower(b - 1);
      Doubled(b - 1);
    }
  }

  lemma PowerIsOneBit(b: Index)
    ensures Power(b) & (Power(b) - 1) == 0
  {
    MaskIsPower(b);
    PowerOfTwo(b);
  }

  predicate Clear(w: bv32, b: nat) {
    w & Power(b) == 0
  }

  /** All bits below `b` are clear. */
  predicate Below(w: bv32, b: nat) {
    w & (Power(b) - 1) == 0
  }

  lemma BelowNext(w: bv32, m: bv32, n: bv32)
    requires m & (m - 1) == 0 && n == m + m && w & (m - 1) == 0 && w & m == 0
    ensures w & (n - 1) == 0
  {
  }

  lemma BelowStep(w: bv32, b: Index, m: bv32)
    requires m == Power(b) && Below(w, b) && Clear(w, b)
    ensures Below(w, b + 1)
  {
    PowerIsOneBit(b);
    BelowNext(w, m, m + m);
  }

  lemma {:induction false} NoneBelow(w: bv32, b: Index)
    requires forall c: Index | c < b :: Clear(w, c)
    ensures Below(w, b)
  {
    if b == 0 {
    } else {
      NoneBelow(w, b - 1);
      BelowStep(w, b - 1, Power(b - 1));
    }
  }

  lemma NoneAtAll(w: bv32, m: bv32)
    requires m == 0x8000_0000 && w & (m - 1) == 0 && w & m == 0
    ensures w == 0
  {
  }

  lemma AllClear(w: bv32)
    requires forall c: Index :: !Bit(w, c)
    ensures w == 0
  {
    forall c: Index ensures Clear(w, c) {
      assert !Bit(w, c);
      MaskIsPower(c);
    }
    NoneBelow(w, 31);
    MaskIsPower(31);
    assert Clear(w, 31);
    NoneAtAll(w, Power(31));
  }

  // ---- A word as its bits ------------------------------------------------------------------

  /** The bits of `w`, the highest first. */
  function Bits(w: bv32): (r: seq<bool>)
    ensures |r| == 32 && forall i | 0 <= i < 32 :: r[i] == Bit(w, 31 - i)
  {
    seq(32, i requires 0 <= i < 32 => Bit(w, 31 - i))
  }

  lemma SameBits(w: bv32, r: seq<bool>)
    requires |r| == 32 && forall i | 0 <= i < 32 :: r[i] == Bits(w)[i]
    ensures Bits(w) == r
  {
  }

  lemma BitAt(w: bv32, w': bv32, i: nat, bit: bool)
    requires i < 32 && forall c: Index :: Bit(w', c) == if c == 31 - i then bit else Bit(w, c)
    ensures Bits(w') == Bits(w)[i := bit]
  {
    SameBits(w', Bits(w)[i := bit]);
  }

  /** Setting, clearing and testing a bit of the word, with a mask, are the same on its bits. */
  lemma BitsAfter(w: bv32, i: nat)
    requires i < 32
    ensures Bits(SetBit(w, 31 - i)) == Bits(w)[i := true]
    ensures Bits(ClearBit(w, 31 - i)) == Bits(w)[i := false]
    ensures Bit(w, 31 - i) == Bits(w)[i]
  {
    forall c: Index
      ensures Bit(SetBit(w, 31 - i), c) == if c == 31 - i then true else Bit(w, c)
      ensures Bit(ClearBit(w, 31 - i), c) == if c == 31 - i then false else Bit(w, c)
    {
      BitAfter(w, 31 - i, c);
    }
    BitAt(w, SetBit(w, 31 - i), i, true);
    BitAt(w, ClearBit(w, 31 - i), i, false);
  }

  /** The word is zero exactly if none of its bits is set, and the complement has the other bits. */
  lemma BitsZero(w: bv32)
    ensures w == 0 <==> forall i | 0 <= i < 32 :: !Bits(w)[i]
    ensures forall i | 0 <= i < 32 :: Bits(Not(w))[i] == !Bits(w)[i]
  {
    forall i | 0 <= i < 32 ensures Bits(Not(w))[i] == !Bits(w)[i] {
      BitNot(w, 31 - i);
    }
    if forall i | 0 <= i < 32 :: !Bits(w)[i] {
      forall c: Index ensures !Bit(w, c) {
        assert !Bits(w)[31 - c];
      }
      AllClear(w);
    }
    if w == 0 {
      forall i | 0 <= i < 32 ensures !Bits(w)[i] {
        NoBit(31 - i);
      }
    }
  }
}

/** The tid bitmap of core/src/kernel/global.rs: bit `t` is set while task `t` exists. */
module TidBits {
  import opened Config
  import opened Words

  /** The identifiers whose bit is set. */
  function Used(bits: bv32): set<Tid> {
    set t: Tid | 0 <= t < TASK_MAX && Bit(bits, t)
  }

  lemma UsedAdded(bits: bv32, bits': bv32, t: Tid)
    requires forall u: Tid :: Bit(bits', u) <==> u == t || Bit(bits, u)
    ensures Used(bits') == Used(bits) + {t}
  {
  }

  lemma UsedRemoved(bits: bv32, bits': bv32, t: Tid)
    requires forall u: Tid :: Bit(bits', u) <==> u != t && Bit(bits, u)
    ensures Used(bits') == Used(bits) - {t}
  {
  }

  /** Setting or clearing a bit adds or removes exactly that identifier. */
  lemma UsedAfter(bits: bv32, t: Tid)
    ensures Used(SetBit(bits, t)) == Used(bits) + {t}
    ensures Used(ClearBit(bits, t)) == Used(bits) - {t}
  {
    forall u: Tid
      ensures Bit(SetBit(bits, t), u) <==> u == t || Bit(bits, u)
      ensures Bit(ClearBit(bits, t), u) <==> u != t && Bit(bits, u)
    {
      BitAfter(bits, t, u);
    }
    UsedAdded(bits, SetBit(bits, t), t);
    UsedRemoved(bits, ClearBit(bits, t), t);
  }

  lemma NoBits()
    ensures Used(0) == {}
  {
    forall t: Tid ensures !Bit(0, t) {
      NoBit(t);
    }
  }
}

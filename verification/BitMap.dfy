/** The bitmap of core/src/data_type/bitmap.rs: `n` bits packed into words of 32, refining a set of
    positions. A word is its bits, the highest first, so that bit `31 - b` of the program is `w[b]`; that
    the program's masks do the same to a 32-bit word is `Words.BitsAfter` and `Words.BitsZero`. */
module BitMaps {
  import opened Config

  const WORD: nat := 32

  type Word = w: seq<bool> | |w| == 32 witness seq(32, _ => false)

  const ZERO: Word := seq(32, _ => false)
  const ALL_ONES: Word := seq(32, _ => true)

  function Inverted(w: Word): (r: Word)
    ensures forall b | 0 <= b < WORD :: r[b] == !w[b]
  {
    seq(32, b requires 0 <= b < 32 => !w[b])
  }

  /** The number of bits before the first one that is set. */
  function LeadingZeros(w: seq<bool>): (r: nat)
    ensures r <= |w| && (r < |w| ==> w[r]) && forall b | 0 <= b < r :: !w[b]
  {
    if w == [] || w[0] then 0 else 1 + LeadingZeros(w[1..])
  }

  function Ones(w: seq<bool>): nat {
    if w == [] then 0 else Ones(w[..|w| - 1]) + (if w[|w| - 1] then 1 else 0)
  }

  lemma NotZero(w: Word)
    ensures w != ZERO ==> LeadingZeros(w) < WORD
    ensures w != ALL_ONES ==> LeadingZeros(Inverted(w)) < WORD
  {
    if LeadingZeros(w) == WORD {
      assert w == ZERO;
    }
    if LeadingZeros(Inverted(w)) == WORD {
      assert forall b | 0 <= b < WORD :: !Inverted(w)[b];
      assert w == ALL_ONES;
    }
  }

  /** The positions from `base` on at which `w` has a bit. */
  function Positions(w: seq<bool>, base: nat): set<nat> {
    set b | 0 <= b < |w| && w[b] :: base + b
  }

  lemma {:induction false} OnesCount(w: seq<bool>, base: nat)
    ensures |Positions(w, base)| == Ones(w)
  {
    if w != [] {
      var n := |w| - 1;
      OnesCount(w[..n], base);
      assert Positions(w, base) == Positions(w[..n], base) + if w[n] then {base + n} else {};
      assert base + n !in Positions(w[..n], base);
    } else {
      assert Positions(w, base) == {};
    }
  }

  class BitMap {
    const n: nat
    const data: array<Word>

    predicate At(p: nat)
      requires p < WORD * data.Length
      reads data
    {
      data[p / WORD][p % WORD]
    }

    /** There are just enough words, and the bits past the end stay clear. */
    ghost predicate Valid()
      reads data
    {
      data.Length == (n + WORD - 1) / WORD && forall p | n <= p < WORD * data.Length :: !At(p)
    }

    ghost function Members(): set<nat>
      requires Valid()
      reads data
    {
      set p | 0 <= p < n && At(p)
    }

    constructor (size: nat)
      ensures Valid() && fresh(data) && n == size && Members() == {}
    {
      n := size;
      data := new Word[(size + WORD - 1) / WORD](_ => ZERO);
    }

    method Put(pos: nat, bit: bool)
      requires Valid() && pos < n
      modifies data
      ensures Valid() && Members() == if bit then old(Members()) + {pos} else old(Members()) - {pos}
    {
      var index, b := pos / WORD, pos % WORD;
      data[index] := data[index][b := bit];
      forall p | 0 <= p < WORD * data.Length ensures At(p) == if p == pos then bit else old(At(p)) {
        assert p == p / WORD * WORD + p % WORD && pos == index * WORD + b;
      }
    }

    method Set(pos: nat)
      requires Valid()
      modifies data
      ensures Valid() && Members() == if pos < n then old(Members()) + {pos} else old(Members())
    {
      if pos < n {
        Put(pos, true);
      }
    }

    method Reset(pos: nat)
      requires Valid()
      modifies data
      ensures Valid() && Members() == if pos < n then old(Members()) - {pos} else old(Members())
    {
      if pos < n {
        Put(pos, false);
      }
    }

    method Test(pos: nat) returns (r: bool)
      requires Valid()
      ensures r <==> pos in Members()
    {
      r := pos < n && data[pos / WORD][pos % WORD];
    }

    /** The least position not in the set. */
    method FirstZero() returns (r: Option<nat>)
      requires Valid()
      ensures r.None? ==> forall p | 0 <= p < n :: p in Members()
      ensures r.Some? ==> r.value < n && r.value !in Members() && forall p | 0 <= p < r.value :: p in Members()
    {
      for i := 0 to data.Length
        invariant forall p | 0 <= p < WORD * i && p < n :: At(p)
      {
        if data[i] != ALL_ONES {
          var bit := LeadingZeros(Inverted(data[i]));
          NotZero(data[i]);
          var pos := i * WORD + bit;
          assert pos / WORD == i && pos % WORD == bit;
          assert !At(pos);
          forall p | WORD * i <= p < pos ensures At(p) {
            assert p / WORD == i && !Inverted(data[i])[p % WORD];
          }
          if pos < n {
            return Some(pos);
          }
        }
        forall p | WORD * i <= p < WORD * (i + 1) && p < n ensures At(p) {
          assert p / WORD == i;
        }
      }
      r := None;
    }

    /** The least position in the set. */
    method FirstOne() returns (r: Option<nat>)
      requires Valid()
      ensures r.None? ==> Members() == {}
      ensures r.Some? ==> r.value in Members() && forall p | p in Members() :: r.value <= p
    {
      for i := 0 to data.Length
        invariant forall p | 0 <= p < WORD * i :: !At(p)
      {
        if data[i] != ZERO {
          var bit := LeadingZeros(data[i]);
          NotZero(data[i]);
          var pos := i * WORD + bit;
          assert pos / WORD == i && pos % WORD == bit;
          assert At(pos);
          forall p | WORD * i <= p < pos ensures !At(p) {
            assert p / WORD == i && !data[i][p % WORD];
          }
          if pos < n {
            return Some(pos);
          }
        }
        forall p | WORD * i <= p < WORD * (i + 1) ensures !At(p) {
          assert p / WORD == i;
        }
      }
      r := None;
    }

    /** The members in the first `i` words. */
    ghost function Below(i: nat): set<nat>
      requires i <= data.Length
      reads data
    {
      set p | 0 <= p < WORD * i && At(p)
    }

    lemma NextWord(i: nat)
      requires i < data.Length
      ensures |Below(i + 1)| == |Below(i)| + Ones(data[i])
    {
      var here := Positions(data[i], WORD * i);
      OnesCount(data[i], WORD * i);
      forall p | p in Below(i + 1) && p !in Below(i) ensures p in here {
        var b := p - WORD * i;
        assert p / WORD == i && p % WORD == b;
        assert data[i][b] && p == WORD * i + b;
      }
      forall p | p in here ensures p in Below(i + 1) && p !in Below(i) {
        var b :| 0 <= b < WORD && data[i][b] && p == WORD * i + b;
        assert p / WORD == i && p % WORD == b;
      }
      assert Below(i + 1) == Below(i) + here;
    }

    method CountOnes() returns (total: nat)
      requires Valid()
      ensures total == |Members()|
    {
      total := 0;
      for i := 0 to data.Length
        invariant total == |Below(i)|
      {
        NextWord(i);
        total := total + Ones(data[i]);
      }
      assert Members() == Below(data.Length);
    }

    method CountZeros() returns (r: int)
      requires Valid()
      ensures r == n - |Members()| >= 0
    {
      var ones := CountOnes();
      Within(Members(), n);
      r := n - ones;
    }
  }

  lemma {:induction false} Within(s: set<nat>, n: nat)
    requires forall p | p in s :: p < n
    ensures |s| <= n
  {
    if n > 0 {
      Within(s - {n - 1}, n - 1);
    } else {
      assert s == {};
    }
  }
}

/** The 64-bit words of the ladder's occupancy bitmask.

    A word is its 64 bits, least significant first, so `w[i]` is bit i.  Each operation the book
    performs on words is defined bit by bit; `Value` reads a word back as the unsigned integer it
    stands for, and the lemmas on it justify the two masks the book obtains by subtraction.  */
module Bits {

  type Word = w: seq<bool> | |w| == 64 witness seq(64, _ => false)

  const ZERO: Word := seq(64, _ => false)

  // `w | (1 << i)`
  function SetBit(w: Word, i: int): Word
    requires 0 <= i < 64
  {
    w[i := true]
  }

  // `w & ~(1 << i)`
  function ClearBit(w: Word, i: int): Word
    requires 0 <= i < 64
  {
    w[i := false]
  }

  // `a & b`
  function And(a: Word, b: Word): Word {
    seq(64, i requires 0 <= i < 64 => a[i] && b[i])
  }

  // `w >> k`
  function ShiftRight(w: Word, k: int): Word
    requires 0 <= k < 64
  {
    seq(64, i requires 0 <= i < 64 => i + k < 64 && w[i + k])
  }

  // The bits above bit b: `(b == 63) ? 0 : ~0 << (b + 1)`.
  function AboveMask(b: int): Word
    requires 0 <= b < 64
  {
    seq(64, i => b < i)
  }

  // The n low bits: `(n == 64) ? ~0 : (1 << n) - 1`.
  function LowMask(n: int): Word
    requires 0 <= n <= 64
  {
    seq(64, i => i < n)
  }

  // The bits up to and including b: `~0 >> (63 - b)`.
  function UpToMask(b: int): Word
    requires 0 <= b < 64
  {
    seq(64, i => i <= b)
  }

  // The bits from b up: `~0 << b`.
  function FromMask(b: int): Word
    requires 0 <= b < 64
  {
    seq(64, i => b <= i)
  }

  lemma NonZeroHasBit(w: Word)
    ensures w == ZERO <==> forall i | 0 <= i < 64 :: !w[i]
  {
    if forall i | 0 <= i < 64 :: !w[i] {
      assert forall i | 0 <= i < 64 :: w[i] == ZERO[i];
    }
  }

  // `countr_zero(w)` of a non-zero word: its lowest set bit.
  method CountrZero(w: Word) returns (r: int)
    requires w != ZERO
    ensures 0 <= r < 64 && w[r]
    ensures forall i | 0 <= i < r :: !w[i]
  {
    NonZeroHasBit(w);
    r := 0;
    while !w[r]
      invariant 0 <= r < 64
      invariant forall i | 0 <= i < r :: !w[i]
      decreases 64 - r
    {
      r := r + 1;
    }
  }

  // `63 - countl_zero(w)` of a non-zero word: its highest set bit.
  method HighestBit(w: Word) returns (r: int)
    requires w != ZERO
    ensures 0 <= r < 64 && w[r]
    ensures forall i | r < i < 64 :: !w[i]
  {
    NonZeroHasBit(w);
    r := 63;
    while !w[r]
      invariant 0 <= r < 64
      invariant forall i | r < i < 64 :: !w[i]
      decreases r
    {
      r := r - 1;
    }
  }

  // The unsigned integer a bit string stands for.
  function Value(bits: seq<bool>): nat {
    if bits == [] then 0 else (if bits[0] then 1 else 0) + 2 * Value(bits[1..])
  }

  function Pow2(n: nat): nat {
    if n == 0 then 1 else 2 * Pow2(n - 1)
  }

  lemma {:induction false} ValueOfOneBit(len: nat, b: nat)
    requires b < len
    ensures Value(seq(len, i => i == b)) == Pow2(b)
  {
    var s := seq(len, i => i == b);
    if b == 0 {
      ValueOfLow(len - 1, 0);
      assert s[1..] == seq(len - 1, i => i < 0);
    } else {
      ValueOfOneBit(len - 1, b - 1);
      assert s[1..] == seq(len - 1, i => i == b - 1);
    }
  }

  // n low bits set is one less than the single bit n.
  lemma {:induction false} ValueOfLow(len: nat, n: nat)
    requires n <= len
    ensures Value(seq(len, i => i < n)) == Pow2(n) - 1
  {
    var s := seq(len, i => i < n);
    if len > 0 {
      if n == 0 {
        ValueOfLow(len - 1, 0);
        assert s[1..] == seq(len - 1, i => i < 0);
      } else {
        ValueOfLow(len - 1, n - 1);
        assert s[1..] == seq(len - 1, i => i < n - 1);
      }
    }
  }

  // The book writes LowMask(n) as `(1 << n) - 1`.
  lemma LowMaskIsSubtraction(n: nat)
    requires n < 64
    ensures Value(LowMask(n)) == Value(SetBit(ZERO, n)) - 1
  {
    ValueOfLow(64, n);
    ValueOfOneBit(64, n);
    assert LowMask(n) == seq(64, i => i < n);
    assert SetBit(ZERO, n) == seq(64, i => i == n);
  }

  // How many bits are set.
  function PopCount(bits: seq<bool>): nat {
    if bits == [] then 0 else (if bits[0] then 1 else 0) + PopCount(bits[1..])
  }

  lemma {:induction false} PopCountClear(bits: seq<bool>, i: nat)
    requires i < |bits| && bits[i]
    ensures PopCount(bits[i := false]) == PopCount(bits) - 1
  {
    if i > 0 {
      PopCountClear(bits[1..], i - 1);
      assert bits[i := false][1..] == bits[1..][i - 1 := false];
    }
  }
}

/** 64-bit words as the sequence of their bits, least significant bit first,
    with the C++ operators that the sequence shredder applies to its bitmaps.

    A shift by 64 or more places is undefined in the source; the preconditions
    of the shifts exclude it, so every caller proves that its amount is legal. */
module Bits {

  type Word = w: seq<bool> | |w| == 64 witness seq(64, i => false)

  /** `0` and the all-ones word `MAX_VALUE` */
  function Zero(): (r: Word)
    ensures forall i | 0 <= i < 64 :: !r[i]
  {
    seq(64, i => false)
  }

  function Ones(): (r: Word)
    ensures forall i | 0 <= i < 64 :: r[i]
  {
    seq(64, i => true)
  }

  /** `a | b`, `a & b`, `a ^ b` and `~a` */
  function Or(a: Word, b: Word): (r: Word)
    ensures forall i | 0 <= i < 64 :: r[i] == (a[i] || b[i])
  {
    seq(64, i requires 0 <= i < 64 => a[i] || b[i])
  }

  function And(a: Word, b: Word): (r: Word)
    ensures forall i | 0 <= i < 64 :: r[i] == (a[i] && b[i])
  {
    seq(64, i requires 0 <= i < 64 => a[i] && b[i])
  }

  function Xor(a: Word, b: Word): (r: Word)
    ensures forall i | 0 <= i < 64 :: r[i] == (a[i] != b[i])
  {
    seq(64, i requires 0 <= i < 64 => a[i] != b[i])
  }

  function Not(a: Word): (r: Word)
    ensures forall i | 0 <= i < 64 :: r[i] == !a[i]
  {
    seq(64, i requires 0 <= i < 64 => !a[i])
  }

  /** `a << k` and `a >> k` */
  function ShiftLeft(a: Word, k: nat): (r: Word)
    requires k < 64
    ensures forall i | 0 <= i < 64 :: r[i] == (i >= k && a[i - k])
  {
    seq(64, i requires 0 <= i < 64 => i >= k && a[i - k])
  }

  function ShiftRight(a: Word, k: nat): (r: Word)
    requires k < 64
    ensures forall i | 0 <= i < 64 :: r[i] == (i + k < 64 && a[i + k])
  {
    seq(64, i requires 0 <= i < 64 => i + k < 64 && a[i + k])
  }

  /** `FIRST_BIT_MASK << i` */
  function BitMask(i: nat): (r: Word)
    requires i < 64
    ensures forall j | 0 <= j < 64 :: r[j] == (i == j)
  {
    ShiftLeft(Zero()[0 := true], i)
  }

  /** The number that a sequence of bits denotes. */
  ghost function Value(s: seq<bool>): (v: nat) {
    if s == [] then 0 else (if s[0] then 1 else 0) + 2 * Value(s[1..])
  }

  /** `a - 1`, by borrowing from the least significant bit upwards */
  function MinusOne(s: seq<bool>): (r: seq<bool>)
    ensures |r| == |s|
  {
    if s == [] then [] else if s[0] then [false] + s[1..] else [true] + MinusOne(s[1..])
  }

  lemma {:induction false} MinusOneValue(s: seq<bool>)
    requires true in s
    ensures Value(MinusOne(s)) == Value(s) - 1
  {
    if s[0] {
      assert MinusOne(s)[1..] == s[1..];
    } else {
      MinusOneValue(s[1..]);
      assert MinusOne(s)[1..] == MinusOne(s[1..]);
    }
  }

  /** A power of two minus one has ones exactly below the single bit. */
  lemma {:induction false} MinusOneOfSingleBit(s: seq<bool>, i: nat, j: nat)
    requires i < |s| && j < |s|
    requires forall k | 0 <= k < |s| :: s[k] == (k == i)
    ensures MinusOne(s)[j] == (j < i)
  {
    if i > 0 && j > 0 {
      MinusOneOfSingleBit(s[1..], i - 1, j - 1);
    }
  }

  /** The masks of all bits below and above position `i`. */
  function LowerBitsMask(i: nat): (r: Word)
    requires i < 64
    ensures forall j | 0 <= j < 64 :: r[j] == (j < i)
  {
    assert forall j | 0 <= j < 64 :: MinusOne(BitMask(i))[j] == (j < i) by {
      forall j | 0 <= j < 64 ensures MinusOne(BitMask(i))[j] == (j < i) {
        MinusOneOfSingleBit(BitMask(i), i, j);
      }
    }
    MinusOne(BitMask(i))
  }

  function HigherBitsMask(i: nat): (r: Word)
    requires i < 64
    ensures forall j | 0 <= j < 64 :: r[j] == (j > i)
  {
    Xor(Ones(), Or(LowerBitsMask(i), BitMask(i)))
  }

  /** `(mask | w) == w` holds exactly when `w` has every bit of `mask`. */
  lemma Covers(mask: Word, w: Word)
    ensures Or(mask, w) == w <==> forall i | 0 <= i < 64 :: mask[i] ==> w[i]
  {
    if forall i | 0 <= i < 64 :: mask[i] ==> w[i] {
      assert Or(mask, w) == w;
    }
    if Or(mask, w) == w {
      forall i | 0 <= i < 64 && mask[i] ensures w[i] {
        assert Or(mask, w)[i];
      }
    }
  }

  lemma AllOnes(w: Word)
    ensures w == Ones() <==> forall i | 0 <= i < 64 :: w[i]
  {
  }

  lemma AllZero(w: Word)
    ensures w == Zero() <==> forall i | 0 <= i < 64 :: !w[i]
  {
  }

  /** `static_cast<bool>(BitMask(i) & w)` reads the bit at position `i`. */
  predicate TestBit(w: Word, i: nat)
    requires i < 64
  {
    And(BitMask(i), w) != Zero()
  }

  lemma TestBitReads(w: Word, i: nat)
    requires i < 64
    ensures TestBit(w, i) == w[i]
  {
    AllZero(And(BitMask(i), w));
    if w[i] {
      assert And(BitMask(i), w)[i];
    }
  }

  /** Number of consecutive ones directly below position `i`. */
  function OnesBelow(w: Word, i: nat): (r: nat)
    requires i <= 64
    ensures r <= i
    ensures forall j | i - r <= j < i :: w[j]
    ensures r < i ==> !w[i - r - 1]
  {
    if i == 0 || !w[i - 1] then 0 else 1 + OnesBelow(w, i - 1)
  }

  /** Number of consecutive ones from position `i` upwards. */
  function OnesFrom(w: Word, i: nat): (r: nat)
    requires i <= 64
    ensures i + r <= 64
    ensures forall j | i <= j < i + r :: w[j]
    ensures i + r < 64 ==> !w[i + r]
    decreases 64 - i
  {
    if i == 64 || !w[i] then 0 else 1 + OnesFrom(w, i + 1)
  }

  /** `std::countl_one`, `std::countr_one` and `std::countl_zero` */
  function CountLeadingOnes(w: Word): (r: nat)
    ensures r <= 64
    ensures forall j | 64 - r <= j < 64 :: w[j]
    ensures r < 64 ==> !w[64 - r - 1]
  {
    OnesBelow(w, 64)
  }

  function CountTrailingOnes(w: Word): (r: nat)
    ensures r <= 64
    ensures forall j | 0 <= j < r :: w[j]
    ensures r < 64 ==> !w[r]
  {
    OnesFrom(w, 0)
  }

  function CountLeadingZeros(w: Word): (r: nat)
    ensures r <= 64
    ensures forall j | 64 - r <= j < 64 :: !w[j]
    ensures r < 64 ==> w[64 - r - 1]
  {
    CountLeadingOnes(Not(w))
  }
}

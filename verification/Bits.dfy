/**
 64-bit words and their one bits. Native masks and tag bitmaps are words in the
 source and in the methods of `Caps` and `JitArena`; what they mean is a set of
 numbers. The methods at the end are the word operations the source uses, each
 with its effect on the set.
 */
module Bits {
  // A word by its one bits.
  type Word = s: set<nat> | forall k | k in s :: k < 64

  const ZERO: Word := {}

  predicate Below(k: nat, n: nat) {
    k < n
  }

  // Every number below `n`.
  ghost function LowBits(n: nat): (w: Word)
    requires n <= 64
    ensures forall k: nat :: k in w <==> k < n
  {
    set k: nat | k < n && Below(k, n)
  }

  // ------------------------------------------------------------- at a fixed bit

  type Index = k: bv7 | k < 64

  predicate One(word: bv64, k: Index) {
    (word >> k) & 1 == 1
  }

  lemma {:induction false} AndAt(a: bv64, b: bv64, k: Index)
    ensures One(a & b, k) <==> One(a, k) && One(b, k)
  {
  }

  lemma {:induction false} OrAt(a: bv64, b: bv64, k: Index)
    ensures One(a | b, k) <==> One(a, k) || One(b, k)
  {
  }

  lemma {:induction false} AndNotAt(a: bv64, b: bv64, k: Index)
    ensures One(a & !b, k) <==> One(a, k) && !One(b, k)
  {
  }

  lemma {:induction false} ShiftedOneAt(b: Index, k: Index)
    ensures One(1 << b, k) <==> k == b
  {
  }

  lemma {:induction false} LowOnesAt(n: Index, k: Index)
    ensures One(!(0xFFFF_FFFF_FFFF_FFFF << n), k) <==> k < n
  {
  }

  lemma {:induction false} AllOnesAt(k: Index)
    ensures One(0xFFFF_FFFF_FFFF_FFFF, k)
  {
  }

  lemma {:induction false} LowMaskAsShift(n: Index)
    ensures (1 << n) - 1 == !((0xFFFF_FFFF_FFFF_FFFF as bv64) << n)
  {
  }

  // --------------------------------------------------------- a word of no bits

  // No one bit at or below `n`.
  predicate Clear(word: bv64, n: Index)
    decreases n
  {
    !One(word, n) && (n == 0 || Clear(word, n - 1))
  }

  lemma {:induction false} ClearBottom(word: bv64)
    requires !One(word, 0)
    ensures word << 63 == 0
  {
  }

  lemma {:induction false} ClearUp(word: bv64, n: Index)
    requires n > 0 && word << (64 - n) == 0 && !One(word, n)
    ensures word << (63 - n) == 0
  {
  }

  lemma {:induction false} ClearIsZero(word: bv64, n: Index)
    requires Clear(word, n)
    ensures word << (63 - n) == 0
    decreases n
  {
    if n == 0 { ClearBottom(word); } else { ClearIsZero(word, n - 1); ClearUp(word, n); }
  }

  lemma {:induction false} NoOnesIsClear(word: bv64, n: Index)
    requires forall k: Index :: !One(word, k)
    ensures Clear(word, n)
    decreases n
  {
    if n > 0 { NoOnesIsClear(word, n - 1); }
  }

  lemma {:induction false} NoOnesIsZero(word: bv64)
    requires forall k: Index :: !One(word, k)
    ensures word == 0
  {
    NoOnesIsClear(word, 63);
    ClearIsZero(word, 63);
  }

  // ------------------------------------------------------ by numbers of any size

  // The word has the bit numbered `k`.
  predicate Has(word: bv64, k: nat) {
    k < 64 && One(word, k as bv7)
  }

  // The form of the test in the source.
  lemma {:induction false} MaskTest(word: bv64, k: Index)
    ensures word & (1 << k) != 0 <==> One(word, k)
  {
  }

  lemma {:induction false} IndexOf(k: nat)
    requires k < 64
    ensures (k as bv7) < 64 && (k as bv7) as nat == k
  {
  }

  lemma {:induction false} NumberOf(k: Index)
    ensures (k as nat) < 64 && (k as nat) as bv7 == k
  {
  }

  lemma {:induction false} SameIndex(i: nat, k: nat)
    requires i < 64 && k < 64
    ensures i as bv7 == k as bv7 <==> i == k
  {
    IndexOf(i);
    IndexOf(k);
  }

  lemma {:induction false} OrderOf(p: Index, q: Index)
    ensures p < q <==> (p as nat) < (q as nat)
  {
  }

  lemma {:induction false} SameOrder(i: nat, k: nat)
    requires i < 64 && k < 64
    ensures i as bv7 < k as bv7 <==> i < k
  {
    IndexOf(i);
    IndexOf(k);
    OrderOf(i as bv7, k as bv7);
  }

  lemma {:induction false} ZeroHasNone(k: nat)
    ensures !Has(0, k)
  {
  }

  // Each operator acts on the bits one by one.
  lemma {:induction false} AndHas(a: bv64, b: bv64, k: nat)
    ensures Has(a & b, k) <==> Has(a, k) && Has(b, k)
  {
    if k < 64 { AndAt(a, b, k as bv7); }
  }

  lemma {:induction false} AndNotHas(a: bv64, b: bv64, k: nat)
    ensures Has(a & !b, k) <==> Has(a, k) && !Has(b, k)
  {
    if k < 64 { AndNotAt(a, b, k as bv7); }
  }

  lemma {:induction false} OrHas(a: bv64, b: bv64, k: nat)
    ensures Has(a | b, k) <==> Has(a, k) || Has(b, k)
  {
    if k < 64 { OrAt(a, b, k as bv7); }
  }

  lemma {:induction false} ShiftedOneHas(i: nat, k: nat)
    requires i < 64
    ensures Has(1 << (i as bv7), k) <==> k == i
  {
    if k < 64 {
      ShiftedOneAt(i as bv7, k as bv7);
      SameIndex(i, k);
    }
  }

  // `u64::MAX` has every bit, `(1 << n) - 1` those below `n`.
  lemma {:induction false} AllOnesHas(k: nat)
    ensures Has(0xFFFF_FFFF_FFFF_FFFF, k) <==> k < 64
  {
    if k < 64 { AllOnesAt(k as bv7); }
  }

  lemma {:induction false} LowMaskHas(n: nat, k: nat)
    requires n < 64
    ensures Has((1 << (n as bv7)) - 1, k) <==> k < n
  {
    LowMaskAsShift(n as bv7);
    if k < 64 {
      LowOnesAt(n as bv7, k as bv7);
      SameOrder(k, n);
    }
  }

  // The test `a & !b == 0` is inclusion of one bits.
  lemma {:induction false} AndNotZeroIsInclusion(a: bv64, b: bv64)
    ensures a & !b == 0 <==> forall k: nat :: Has(a, k) ==> Has(b, k)
  {
    var d := a & !b;
    if forall k: nat :: Has(a, k) ==> Has(b, k) {
      forall k: Index ensures !One(d, k) {
        NumberOf(k);
        AndNotHas(a, b, k as nat);
      }
      NoOnesIsZero(d);
    } else {
      var k: nat :| Has(a, k) && !Has(b, k);
      AndNotHas(a, b, k);
      ZeroHasNone(k);
    }
  }

  // ------------------------------------------------------------ word operations

  ghost function OneBits(word: bv64): (r: Word)
    ensures forall k: nat :: k in r <==> Has(word, k)
  {
    set k: nat | k < 64 && Has(word, k)
  }

  lemma {:induction false} NoOneBits()
    ensures OneBits(0) == ZERO
  {
    forall k: nat { ZeroHasNone(k); }
  }

  // `a & b`
  method And(a: bv64, b: bv64) returns (r: bv64)
    ensures OneBits(r) == OneBits(a) * OneBits(b)
  {
    r := a & b;
    forall k: nat { AndHas(a, b, k); }
  }

  // `a & !b == 0`
  method Within(a: bv64, b: bv64) returns (r: bool)
    ensures r <==> OneBits(a) <= OneBits(b)
  {
    r := a & !b == 0;
    AndNotZeroIsInclusion(a, b);
  }

  // `word & (1 << i) != 0`
  method TestBit(word: bv64, i: nat) returns (r: bool)
    requires i < 64
    ensures r <==> i in OneBits(word)
  {
    IndexOf(i);
    var mask: bv64 := 1 << (i as bv7);
    assert word & mask != 0 <==> Has(word, i) by { MaskTest(word, i as bv7); }
    r := word & mask != 0;
  }

  // `word | (1 << i)`, or `word & !(1 << i)`
  method PutBit(word: bv64, i: nat, on: bool) returns (r: bv64)
    requires i < 64
    ensures OneBits(r) == if on then OneBits(word) + {i} else OneBits(word) - {i}
  {
    IndexOf(i);
    var mask: bv64 := 1 << (i as bv7);
    forall k: nat ensures Has(mask, k) <==> k == i { ShiftedOneHas(i, k); }
    assert OneBits(mask) == {i};
    r := ApplyMask(word, mask, on);
  }

  method ApplyMask(word: bv64, mask: bv64, on: bool) returns (r: bv64)
    ensures OneBits(r) == if on then OneBits(word) + OneBits(mask) else OneBits(word) - OneBits(mask)
  {
    if on {
      r := word | mask;
      forall k: nat { OrHas(word, mask, k); }
    } else {
      r := word & !mask;
      forall k: nat { AndNotHas(word, mask, k); }
    }
  }

  // `u64::MAX`
  method AllOnes() returns (r: bv64)
    ensures OneBits(r) == LowBits(64)
  {
    r := 0xFFFF_FFFF_FFFF_FFFF;
    forall k: nat { AllOnesHas(k); }
  }

  // `(1 << n) - 1`
  method LowMask(n: nat) returns (r: bv64)
    requires n < 64
    ensures OneBits(r) == LowBits(n)
  {
    IndexOf(n);
    r := (1 << (n as bv7)) - 1;
    forall k: nat ensures Has(r, k) <==> k < n { LowMaskHas(n, k); }
  }
}

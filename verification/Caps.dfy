/**
 Capabilities as values (byteflow/src/bytecode/cap.rs) and the delegation gate
 (byteflow/src/scheduler/delegate.rs): rights bitsets, native masks of any word
 length, and attenuation. A mask is a sequence of words, each given by its one
 bits; the methods compute with the words themselves.
 */
module Caps {
  import opened Common
  import opened Bits

  // The one bits of `CapRights`. `contains` and `is_subset_of` are inclusion.
  type Rights = s: set<nat> | forall k | k in s :: k < 32

  const NO_RIGHTS: Rights := {}
  const NATIVE: nat := 7

  // -------------------------------------------------------------------- masks

  // One word per 64 natives; missing words are zero.
  type NativeMask = seq<Word>

  predicate Allows(mask: NativeMask, idx: nat) {
    idx / 64 < |mask| && idx % 64 in mask[idx / 64]
  }

  // The mask that 64-bit words stand for.
  ghost function MaskView(words: seq<bv64>): (mask: NativeMask)
    ensures |mask| == |words| && forall w | 0 <= w < |words| :: mask[w] == OneBits(words[w])
  {
    seq(|words|, w requires 0 <= w < |words| => OneBits(words[w]))
  }

  // `NativeMask::allows`
  method AllowsNative(words: seq<bv64>, idx: nat) returns (r: bool)
    ensures r <==> Allows(MaskView(words), idx)
  {
    if idx / 64 >= |words| { return false; }
    r := TestBit(words[idx / 64], idx % 64);
  }

  function Intersect(a: NativeMask, b: NativeMask): (r: NativeMask)
    ensures |r| == if |a| <= |b| then |a| else |b|
    ensures forall w | 0 <= w < |r| :: r[w] == a[w] * b[w]
  {
    if a == [] || b == [] then [] else [a[0] * b[0]] + Intersect(a[1..], b[1..])
  }

  // `intersect`: word by word, up to the shorter mask.
  method IntersectWords(a: seq<bv64>, b: seq<bv64>) returns (r: seq<bv64>)
    ensures MaskView(r) == Intersect(MaskView(a), MaskView(b))
  {
    var n := if |a| <= |b| then |a| else |b|;
    r := [];
    for w := 0 to n
      invariant |r| == w && forall v | 0 <= v < w :: OneBits(r[v]) == OneBits(a[v]) * OneBits(b[v])
    {
      var word := And(a[w], b[w]);
      r := r + [word];
    }
  }

  // The intersection allows exactly what both allow, whatever the lengths.
  lemma {:induction false} IntersectAllows(a: NativeMask, b: NativeMask, idx: nat)
    ensures Allows(Intersect(a, b), idx) <==> Allows(a, idx) && Allows(b, idx)
  {
  }

  ghost predicate MaskSubset(a: NativeMask, b: NativeMask) {
    forall idx: nat :: Allows(a, idx) ==> Allows(b, idx)
  }

  ghost function WordAt(mask: NativeMask, w: nat): Word {
    if w < |mask| then mask[w] else {}
  }

  // `is_subset_of`: compares words over the longer length.
  method IsSubsetOf(a: seq<bv64>, b: seq<bv64>) returns (r: bool)
    ensures r <==> MaskSubset(MaskView(a), MaskView(b))
  {
    ghost var x, y := MaskView(a), MaskView(b);
    var n := if |a| >= |b| then |a| else |b|;
    NoOneBits();
    for w := 0 to n
      invariant forall v | 0 <= v < w :: WordAt(x, v) <= WordAt(y, v)
    {
      var within := Within(if w < |a| then a[w] else 0, if w < |b| then b[w] else 0);
      if !within {
        WordOutside(x, y, w);
        return false;
      }
    }
    forall idx: nat | Allows(x, idx) ensures Allows(y, idx) {
      assert WordAt(x, idx / 64) <= WordAt(y, idx / 64);
    }
    return true;
  }

  lemma {:induction false} WordOutside(a: NativeMask, b: NativeMask, w: nat)
    requires !(WordAt(a, w) <= WordAt(b, w))
    ensures !MaskSubset(a, b)
  {
    var k :| k in WordAt(a, w) && k !in WordAt(b, w);
    var idx := 64 * w + k;
    assert idx / 64 == w && idx % 64 == k;
    assert Allows(a, idx) && !Allows(b, idx);
  }

  // `native_count.div_ceil(64)`
  function WordCount(n: nat): nat { (n + 63) / 64 }

  // `NativeMask::full`: all ones, then clear the tail of the last word.
  method FullMask(n: nat) returns (mask: seq<bv64>)
    ensures |mask| == WordCount(n)
    ensures forall idx: nat :: Allows(MaskView(mask), idx) <==> idx < n
  {
    var ones := AllOnes();
    mask := seq(WordCount(n), _ => ones);
    var rem := n % 64;
    if rem != 0 {
      var low := LowMask(rem);
      var last := And(mask[|mask| - 1], low);
      mask := mask[|mask| - 1 := last];
    }
    FullAllows(MaskView(mask), n, rem);
  }

  lemma {:induction false} FullAllows(mask: NativeMask, n: nat, rem: nat)
    requires |mask| == WordCount(n) && rem == n % 64
    requires forall w | 0 <= w < |mask| - 1 :: mask[w] == LowBits(64)
    requires mask != [] ==> mask[|mask| - 1] == if rem != 0 then LowBits(64) * LowBits(rem) else LowBits(64)
    ensures forall idx: nat :: Allows(mask, idx) <==> idx < n
  {
    forall idx: nat ensures Allows(mask, idx) <==> idx < n {
      FullBit(n, rem, idx, idx / 64, idx % 64);
    }
  }

  // An index is below `n` exactly when its bit is in a word before the last, or
  // in the last one and below the remainder.
  lemma {:induction false} FullBit(n: nat, rem: nat, idx: nat, w: nat, k: nat)
    requires rem == n % 64 && w == idx / 64 && k == idx % 64
    ensures idx < n <==> w < WordCount(n) && (w == WordCount(n) - 1 && rem != 0 ==> k < rem)
  {
    assert idx == 64 * w + k && n == 64 * (n / 64) + rem;
  }

  // The mask with the bits of the first `j` indices that name a native.
  ghost function MaskOf(n: nat, idxs: seq<nat>, j: nat): (mask: NativeMask)
    requires j <= |idxs|
    ensures |mask| == WordCount(n)
  {
    if j == 0 then seq(WordCount(n), _ => ZERO)
    else
      var mask, i := MaskOf(n, idxs, j - 1), idxs[j - 1];
      if i < n then mask[i / 64 := mask[i / 64] + {i % 64}] else mask
  }

  lemma {:induction false} MaskOfAllows(n: nat, idxs: seq<nat>, j: nat, idx: nat)
    requires j <= |idxs|
    ensures Allows(MaskOf(n, idxs, j), idx) <==> idx < n && idx in idxs[..j]
  {
    if j > 0 {
      MaskOfAllows(n, idxs, j - 1, idx);
      if idxs[j - 1] < n { SetOneBit(MaskOf(n, idxs, j - 1), idxs[j - 1], idx); }
      assert idxs[..j] == idxs[..j - 1] + [idxs[j - 1]];
    }
  }

  lemma {:induction false} SetOneBit(mask: NativeMask, i: nat, idx: nat)
    requires i / 64 < |mask|
    ensures Allows(mask[i / 64 := mask[i / 64] + {i % 64}], idx) <==> Allows(mask, idx) || idx == i
  {
    assert idx == 64 * (idx / 64) + idx % 64 && i == 64 * (i / 64) + i % 64;
  }

  // `NativeMask::from_indices`: set one bit per index that names a native.
  method FromIndices(n: nat, idxs: seq<nat>) returns (mask: seq<bv64>)
    ensures |mask| == WordCount(n)
    ensures forall idx: nat :: Allows(MaskView(mask), idx) <==> idx < n && idx in idxs
  {
    NoOneBits();
    var words := new bv64[WordCount(n)](_ => 0);
    for j := 0 to |idxs|
      invariant fresh(words) && MaskView(words[..]) == MaskOf(n, idxs, j)
    {
      var i := idxs[j];
      if i / 64 < words.Length && i < n {
        var word := PutBit(words[i / 64], i % 64, true);
        ghost var before := MaskView(words[..]);
        words[i / 64] := word;
        assert MaskView(words[..]) == before[i / 64 := before[i / 64] + {i % 64}];
      }
    }
    mask := words[..];
    assert idxs[..|idxs|] == idxs;
    forall idx: nat { MaskOfAllows(n, idxs, |idxs|, idx); }
  }

  // ------------------------------------------------------------- capabilities

  datatype Target = Flow(id: U64) | NativeTable | Scheduler | Table(id: U64)

  datatype Cap = Cap(target: Target, rights: Rights, mask: Option<NativeMask>, epoch: U64)

  // `Cap::attenuate`
  function Attenuate(cap: Cap, rights: Rights, mask: Option<NativeMask>): (r: Cap) {
    cap.(rights := cap.rights * rights,
         mask := if cap.mask.Some? && mask.Some? then Some(Intersect(cap.mask.value, mask.value)) else cap.mask)
  }

  datatype DelegateError = SourceRevoked | SourceLacksNative

  // `exec_delegate`, with the epoch read from the source's cell.
  function ExecDelegate(src: Cap, epoch: U64, rights: Rights, mask: Option<NativeMask>)
    : (r: Result<Cap, DelegateError>)
  {
    if src.epoch != epoch then Err(SourceRevoked)
    else if mask.Some? && NATIVE !in src.rights then Err(SourceLacksNative)
    else Ok(Attenuate(src, rights, mask))
  }

  ghost predicate MaskWithin(a: Option<NativeMask>, b: Option<NativeMask>) {
    a.None? || (b.Some? && MaskSubset(a.value, b.value))
  }

  // `a` is derived authority under `b`: same target and epoch, no right and no
  // native that `b` does not have.
  ghost predicate Narrower(a: Cap, b: Cap) {
    && a.target == b.target && a.epoch == b.epoch
    && a.rights <= b.rights
    && MaskWithin(a.mask, b.mask)
  }

  lemma {:induction false} NarrowerTransitive(a: Cap, b: Cap, c: Cap)
    requires Narrower(a, b) && Narrower(b, c)
    ensures Narrower(a, c)
  {
  }

  // Attenuation gives exactly the common authority: within the source, within
  // the request, and nothing both allow is lost.
  lemma {:induction false} AttenuateIsMeet(cap: Cap, rights: Rights, mask: Option<NativeMask>)
    ensures
      var r := Attenuate(cap, rights, mask);
      && Narrower(r, cap)
      && (forall k :: k in r.rights <==> k in cap.rights && k in rights)
      && (r.mask.Some? <==> cap.mask.Some?)
      && (r.mask.Some? ==> forall idx: nat ::
            Allows(r.mask.value, idx) <==> Allows(cap.mask.value, idx) && (mask.Some? ==> Allows(mask.value, idx)))
  {
    if cap.mask.Some? && mask.Some? {
      forall idx: nat { IntersectAllows(cap.mask.value, mask.value, idx); }
    }
  }

  // One attenuation after another.
  predicate Chain(caps: seq<Cap>, wants: seq<(Rights, Option<NativeMask>)>) {
    && |caps| == |wants| + 1
    && forall i | 0 <= i < |wants| :: caps[i + 1] == Attenuate(caps[i], wants[i].0, wants[i].1)
  }

  // Every cap of a chain is within every ancestor, across masks of different
  // lengths.
  lemma {:induction false} ChainNarrows(caps: seq<Cap>, wants: seq<(Rights, Option<NativeMask>)>, i: nat, j: nat)
    requires Chain(caps, wants) && i <= j < |caps|
    ensures Narrower(caps[j], caps[i])
    decreases j
  {
    if i < j {
      ChainNarrows(caps, wants, i, j - 1);
      AttenuateIsMeet(caps[j - 1], wants[j - 1].0, wants[j - 1].1);
      NarrowerTransitive(caps[j], caps[j - 1], caps[i]);
    }
  }
}

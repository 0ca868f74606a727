/** One bit of a 64-bit word: what the identifier bitmap and the property mask are made of. */
module Bits {

  /** The word with only bit `p` set. */
  function Mask(p: bv6): bv64 {
    (1 as bv64) << (p as bv64)
  }

  predicate Test(w: bv64, p: bv6) {
    w & Mask(p) != 0
  }

  function Set(w: bv64, p: bv6): bv64 {
    w | Mask(p)
  }

  function Clear(w: bv64, p: bv6): bv64 {
    w & !Mask(p)
  }

  /** `k` as a six-bit shift amount. */
  function Position(k: nat): bv6
    requires k < 64
  {
    if k == 0 then 0 else Position(k - 1) + 1
  }

  predicate HasBit(w: bv64, k: nat)
    requires k < 64
  {
    Test(w, Position(k))
  }

  function WithBit(w: bv64, k: nat): bv64
    requires k < 64
  {
    Set(w, Position(k))
  }

  function WithoutBit(w: bv64, k: nat): bv64
    requires k < 64
  {
    Clear(w, Position(k))
  }

  lemma MaskSame(w: bv64, p: bv6)
    ensures (w | Mask(p)) & Mask(p) != 0
    ensures (w & !Mask(p)) & Mask(p) == 0
  {
  }

  lemma OrMaskOther(w: bv64, p: bv6, q: bv6)
    requires p != q
    ensures Set(w, p) & Mask(q) == w & Mask(q)
  {
  }

  lemma AndNotMaskOther(w: bv64, p: bv6, q: bv6)
    requires p != q
    ensures Clear(w, p) & Mask(q) == w & Mask(q)
  {
  }

  lemma TestSame(w: bv64, p: bv6)
    ensures Test(Set(w, p), p) && !Test(Clear(w, p), p)
  {
    MaskSame(w, p);
  }

  lemma TestOther(w: bv64, p: bv6, q: bv6)
    requires p != q
    ensures Test(Set(w, p), q) == Test(w, q)
  {
    hide Mask, Set;
    OrMaskOther(w, p, q);
  }

  lemma TestOtherCleared(w: bv64, p: bv6, q: bv6)
    requires p != q
    ensures Test(Clear(w, p), q) == Test(w, q)
  {
    hide Mask, Clear;
    AndNotMaskOther(w, p, q);
  }

  lemma {:induction false} PositionValue(k: nat)
    requires k < 64
    ensures Position(k) as nat == k
  {
    if k > 0 {
      PositionValue(k - 1);
    }
  }

  lemma PositionInjective(i: nat, j: nat)
    requires i < 64 && j < 64
    ensures Position(i) == Position(j) <==> i == j
  {
    PositionValue(i);
    PositionValue(j);
  }

  /** Setting a bit sets that bit and no other. */
  lemma WithBitHas(w: bv64, i: nat, j: nat)
    requires i < 64 && j < 64
    ensures HasBit(WithBit(w, i), j) <==> i == j || HasBit(w, j)
  {
    hide Mask, Test, Set, Position;
    PositionInjective(i, j);
    TestSame(w, Position(i));
    if i != j {
      TestOther(w, Position(i), Position(j));
    }
  }

  /** Clearing a bit clears that bit and no other. */
  lemma WithoutBitHas(w: bv64, i: nat, j: nat)
    requires i < 64 && j < 64
    ensures HasBit(WithoutBit(w, i), j) <==> i != j && HasBit(w, j)
  {
    hide Mask, Test, Clear, Position;
    PositionInjective(i, j);
    TestSame(w, Position(i));
    if i != j {
      TestOtherCleared(w, Position(i), Position(j));
    }
  }
}

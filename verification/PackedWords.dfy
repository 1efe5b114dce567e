/** The two machine words of a directory line, handled as numbers: sharer bits, and 2-bit reader
    counters. A shift by k is a division or product by 2 to the k; setting a clear bit adds its
    weight and clearing a set bit takes it off again. */
module PackedWords {
  import opened Arithmetic

  // ------------------------------------------------------------------------ sharer bits

  /** v & (1 << p), shifting one bit at a time. */
  predicate IsSet(v: nat, p: nat) {
    if p == 0 then v % 2 == 1 else IsSet(v / 2, p - 1)
  }

  lemma {:induction false} IsSetIsShiftAndMask(v: nat, p: nat)
    ensures IsSet(v, p) <==> (v / Pow2(p)) % 2 == 1
  {
    if p > 0 {
      IsSetIsShiftAndMask(v / 2, p - 1);
      DivisionTwice(v, 2, Pow2(p - 1));
    }
  }

  lemma {:induction false} SetWeighs(v: nat, p: nat)
    requires IsSet(v, p)
    ensures v >= Pow2(p)
  {
    if p > 0 {
      SetWeighs(v / 2, p - 1);
    }
  }

  /** v | (1 << p) */
  function SetBit(v: nat, p: nat): nat {
    if IsSet(v, p) then v else v + Pow2(p)
  }

  /** v & ~(1 << p) */
  function ClearBit(v: nat, p: nat): (r: nat)
    ensures r <= v
  {
    if IsSet(v, p) then SetWeighs(v, p); v - Pow2(p) else v
  }

  lemma {:induction false} IsSetAfterSet(v: nat, p: nat, q: nat)
    ensures IsSet(SetBit(v, p), q) <==> p == q || IsSet(v, q)
  {
    if !IsSet(v, p) {
      if p == 0 {
        assert (v + 1) / 2 == v / 2;
      } else {
        assert (v + Pow2(p)) / 2 == v / 2 + Pow2(p - 1) && (v + Pow2(p)) % 2 == v % 2;
        if q > 0 {
          IsSetAfterSet(v / 2, p - 1, q - 1);
        }
      }
    }
  }

  lemma {:induction false} IsSetAfterClear(v: nat, p: nat, q: nat)
    ensures IsSet(ClearBit(v, p), q) <==> p != q && IsSet(v, q)
  {
    if IsSet(v, p) {
      SetWeighs(v, p);
      if p == 0 {
        assert (v - 1) / 2 == v / 2;
      } else {
        assert (v - Pow2(p)) / 2 == v / 2 - Pow2(p - 1) && (v - Pow2(p)) % 2 == v % 2;
        if q > 0 {
          IsSetAfterClear(v / 2, p - 1, q - 1);
        }
      }
    }
  }

  /** Setting one of the lower k bits keeps the word below 2 to the k. */
  lemma {:induction false} BitsFit(v: nat, p: nat, k: nat)
    requires p < k && v < Pow2(k)
    ensures SetBit(v, p) < Pow2(k)
  {
    assert Pow2(k) == 2 * Pow2(k - 1);
    if !IsSet(v, p) && p > 0 {
      BitsFit(v / 2, p - 1, k - 1);
      assert v / 2 + Pow2(p - 1) < Pow2(k - 1);
      assert v + Pow2(p) == 2 * (v / 2 + Pow2(p - 1)) + v % 2;
    }
  }

  lemma {:induction false} NoBitsIsZero(v: nat, k: nat)
    requires v < Pow2(k) && forall p: nat :: p < k ==> !IsSet(v, p)
    ensures v == 0
  {
    if k > 0 {
      assert !IsSet(v, 0);
      forall p: nat | p < k - 1 ensures !IsSet(v / 2, p) {
        assert !IsSet(v, p + 1);
      }
      NoBitsIsZero(v / 2, k - 1);
    }
  }

  lemma {:induction false} ZeroHasNoBits(p: nat)
    ensures !IsSet(0, p)
  {
    if p > 0 {
      ZeroHasNoBits(p - 1);
    }
  }

  // ---------------------------------------------------------------------- reader counters

  function Pow4(p: nat): (r: nat)
    ensures r > 0
  {
    if p == 0 then 1 else 4 * Pow4(p - 1)
  }

  /** (v >> 2p) & 3, shifting one lane at a time. */
  function Lane(v: nat, p: nat): (c: nat)
    ensures c <= 3
  {
    if p == 0 then v % 4 else Lane(v / 4, p - 1)
  }

  lemma {:induction false} LaneIsShiftAndMask(v: nat, p: nat)
    ensures Lane(v, p) == (v / Pow4(p)) % 4
  {
    if p > 0 {
      LaneIsShiftAndMask(v / 4, p - 1);
      DivisionTwice(v, 4, Pow4(p - 1));
    }
  }

  function IncreaseReadCount(v: nat, p: nat): nat {
    if Lane(v, p) < 3 then v + Pow4(p) else v
  }

  lemma {:induction false} LanePositive(v: nat, p: nat)
    requires Lane(v, p) > 0
    ensures v >= Pow4(p)
  {
    if p > 0 {
      LanePositive(v / 4, p - 1);
    }
  }

  function DecreaseReadCount(v: nat, p: nat): (r: nat)
    ensures r <= v
  {
    if Lane(v, p) > 0 then LanePositive(v, p); v - Pow4(p) else v
  }

  /** v & (1 << (2p + 1)) */
  predicate QualifiedReader(v: nat, p: nat) {
    (v / (Pow4(p) * 2)) % 2 == 1
  }

  /** Adding one to a lane that is not full changes that lane only: it never carries. */
  lemma {:induction false} LaneIncrease(v: nat, p: nat, q: nat)
    requires Lane(v, p) < 3
    ensures Lane(v + Pow4(p), q) == if p == q then Lane(v, q) + 1 else Lane(v, q)
  {
    if p == 0 {
      assert (v + 1) / 4 == v / 4;
    } else {
      assert (v + Pow4(p)) / 4 == v / 4 + Pow4(p - 1);
      if q > 0 {
        LaneIncrease(v / 4, p - 1, q - 1);
      }
    }
  }

  /** k lanes never outgrow their 2k bits, so 15 lanes stay inside the 64-bit word. */
  lemma {:induction false} CountersFit(v: nat, p: nat, k: nat)
    requires p < k && v < Pow4(k)
    ensures IncreaseReadCount(v, p) < Pow4(k)
  {
    assert Pow4(k) == 4 * Pow4(k - 1);
    if Lane(v, p) < 3 && p > 0 {
      CountersFit(v / 4, p - 1, k - 1);
      assert v / 4 + Pow4(p - 1) < Pow4(k - 1);
      assert v + Pow4(p) == 4 * (v / 4 + Pow4(p - 1)) + v % 4;
    }
  }

  /** The one-bit test picks out the readers counted at least twice. */
  lemma QualifiedIsTwoReads(v: nat, p: nat)
    ensures QualifiedReader(v, p) <==> Lane(v, p) >= 2
  {
    LaneIsShiftAndMask(v, p);
    HighBit(v, Pow4(p));
  }

  lemma HighBit(v: nat, d: nat)
    requires d > 0
    ensures (v / (d * 2)) % 2 == 1 <==> (v / d) % 4 >= 2
  {
    DivisionTwice(v, d, 2);
    var u := v / d;
    assert (u / 2) % 2 == 1 <==> u % 4 >= 2;
  }

  lemma {:induction false} ZeroLane(p: nat)
    ensures Lane(0, p) == 0
  {
    if p > 0 {
      ZeroLane(p - 1);
    }
  }
}

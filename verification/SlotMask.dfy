/** The 48-bit day mask: slot 0 is bit 47, slot 47 is bit 0. */
module SlotMask {

  /** The C `long long`; arithmetic that could leave the range does not verify. */
  newtype int64 = x: int | -0x8000_0000_0000_0000 <= x < 0x8000_0000_0000_0000

  const SLOTS := 48
  const EV_SCHEDULE_INITIAL_SPOT: int64 := 0x8000_0000_0000

  function Pow2(k: nat): (p: nat)
    ensures 1 <= p
  {
    if k == 0 then 1 else 2 * Pow2(k - 1)
  }

  /** Bit k of an integer in two's complement. */
  predicate Bit(x: int, k: nat)
    decreases k
  {
    if k == 0 then x % 2 == 1 else Bit(x / 2, k - 1)
  }

  /** Bitwise and; the second operand is not negative. */
  function And(x: int, y: nat): nat
    decreases y
  {
    if y == 0 then 0 else 2 * And(x / 2, y / 2) + (x % 2) * (y % 2)
  }

  /** Arithmetic shift to the right. */
  function Shr(x: int64, n: nat): int64
    decreases n
  {
    if n == 0 then x else Shr(x / 2, n - 1)
  }

  /** The offset of slot i: one bit, or nothing once it is shifted past slot 47. */
  function Spot(i: nat): (s: nat)
    requires i <= SLOTS
  {
    if i == SLOTS then 0 else Pow2(SLOTS - 1 - i)
  }

  /** The day mask as the sequence of its slots. */
  function Slots(mask: int): (day: seq<bool>)
    ensures |day| == SLOTS
  {
    seq(SLOTS, i requires 0 <= i < SLOTS => Bit(mask, SLOTS - 1 - i))
  }

  /** The and with one bit is that bit or nothing. */
  lemma {:induction false} AndOneBit(x: int, k: nat)
    ensures And(x, Pow2(k)) == if Bit(x, k) then Pow2(k) else 0
    decreases k
  {
    if k > 0 {
      AndOneBit(x / 2, k - 1);
      assert Pow2(k) / 2 == Pow2(k - 1) && Pow2(k) % 2 == 0;
    } else {
      assert And(x / 2, 0) == 0;
    }
  }

  /** Testing an offset against a mask, both ways the code does it, reads the slot. */
  lemma AndSpot(mask: int, i: nat)
    requires i <= SLOTS
    ensures And(mask, Spot(i)) == 0 <==> i == SLOTS || !Slots(mask)[i]
    ensures And(mask, Spot(i)) == Spot(i) <==> i == SLOTS || Slots(mask)[i]
  {
    if i < SLOTS {
      AndOneBit(mask, SLOTS - 1 - i);
    }
  }

  lemma {:induction false} Pow2Below(k: nat)
    requires k <= 47
    ensures Pow2(k) <= 0x8000_0000_0000
    ensures Pow2(k) == 0x8000_0000_0000 <==> k == 47
    decreases 47 - k
  {
    if k < 47 {
      Pow2Below(k + 1);
      assert Pow2(k + 1) == 2 * Pow2(k);
    } else {
      Pow2Of47();
    }
  }

  lemma Pow2Of47()
    ensures Pow2(47) == 0x8000_0000_0000
  {
    assert Pow2(8) == 256;
    Pow2Sum(8, 8);
    Pow2Sum(16, 16);
    Pow2Sum(32, 8);
    assert Pow2(7) == 128;
    Pow2Sum(40, 7);
  }

  lemma {:induction false} Pow2Sum(a: nat, b: nat)
    ensures Pow2(a + b) == Pow2(a) * Pow2(b)
    decreases b
  {
    if b > 0 {
      Pow2Sum(a, b - 1);
      assert Pow2(a) * Pow2(b) == 2 * (Pow2(a) * Pow2(b - 1));
    }
  }

  /** Offsets fit a long long; shifting moves to the neighbouring slot; only slot 0 is the initial spot. */
  lemma SpotShifts(i: nat)
    requires i < SLOTS
    ensures 1 <= Spot(i) <= EV_SCHEDULE_INITIAL_SPOT as int
    ensures Spot(i) == EV_SCHEDULE_INITIAL_SPOT as int <==> i == 0
    ensures Spot(i) / 2 == Spot(i + 1)
    ensures i > 0 ==> 2 * Spot(i) == Spot(i - 1) <= EV_SCHEDULE_INITIAL_SPOT as int
  {
    Pow2Below(SLOTS - 1 - i);
    if i > 0 {
      Pow2Below(SLOTS - i);
      assert Pow2(SLOTS - i) == 2 * Pow2(SLOTS - 1 - i);
    }
    if i + 1 < SLOTS {
      assert Pow2(SLOTS - 1 - i) == 2 * Pow2(SLOTS - 2 - i);
    }
  }

  /** Shifting the initial spot by a slot number gives that slot's offset. */
  lemma {:induction false} ShrSpot(from: nat, n: nat)
    requires from + n < SLOTS
    ensures Spot(from) <= EV_SCHEDULE_INITIAL_SPOT as int
    ensures Shr(Spot(from) as int64, n) as int == Spot(from + n)
    decreases n
  {
    SpotShifts(from);
    if n > 0 {
      ShrSpot(from + 1, n - 1);
    }
  }

  /** Only the low 48 bits of a mask are ever looked at, and each of them is: two masks have the
      same slots exactly if they differ by a multiple of 2^48. */
  lemma SameSlotsIff(x: int, y: int)
    ensures Slots(x) == Slots(y) <==> exists q: int :: x - y == q * Pow2(SLOTS)
  {
    if Slots(x) == Slots(y) {
      forall k | 0 <= k < SLOTS
        ensures Bit(x, k) == Bit(y, k)
      {
        assert Slots(x)[SLOTS - 1 - k] == Slots(y)[SLOTS - 1 - k];
      }
      var q := SameLowBits(x, y, SLOTS);
    }
    if q: int :| x - y == q * Pow2(SLOTS) {
      SlotsOfSum(y, q);
      assert x == y + q * Pow2(SLOTS);
    }
  }

  lemma SlotsOfSum(y: int, q: int)
    ensures Slots(y + q * Pow2(SLOTS)) == Slots(y)
  {
    var x := y + q * Pow2(SLOTS);
    forall i | 0 <= i < SLOTS
      ensures Slots(x)[i] == Slots(y)[i]
    {
      HighBits(y, q, SLOTS - 1 - i, SLOTS);
    }
  }

  lemma {:induction false} HighBits(x: int, high: int, k: nat, n: nat)
    requires k < n
    ensures Bit(x + high * Pow2(n), k) == Bit(x, k)
    decreases k
  {
    assert high * Pow2(n) == 2 * (high * Pow2(n - 1));
    assert (x + 2 * (high * Pow2(n - 1))) / 2 == x / 2 + high * Pow2(n - 1);
    if k > 0 {
      HighBits(x / 2, high, k - 1, n - 1);
    }
  }

  lemma {:induction false} SameLowBits(x: int, y: int, n: nat) returns (q: int)
    requires forall k | 0 <= k < n :: Bit(x, k) == Bit(y, k)
    ensures x - y == q * Pow2(n)
    decreases n
  {
    if n == 0 {
      q := x - y;
    } else {
      assert Bit(x, 0) == Bit(y, 0);
      forall k | 0 <= k < n - 1
        ensures Bit(x / 2, k) == Bit(y / 2, k)
      {
        assert Bit(x, k + 1) == Bit(y, k + 1);
      }
      q := SameLowBits(x / 2, y / 2, n - 1);
      assert x - y == 2 * (x / 2 - y / 2);
      assert 2 * (q * Pow2(n - 1)) == q * Pow2(n);
    }
  }
}

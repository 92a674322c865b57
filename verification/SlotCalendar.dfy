/** Days, weekdays and half-hour slots of a time in seconds, in UTC; and what a weekly schedule says
    about an instant. This is the plain definition that the shift loops are proved against. */
module SlotCalendar {
  import opened SlotMask

  const DAY := 86400
  const SLOT := 1800

  /** Day 0 was a Thursday. */
  function Weekday(t: int): (d: nat)
    ensures d < 7
  {
    (t / DAY + 4) % 7
  }

  function DayZero(t: int): int { t / DAY * DAY }

  function SlotOf(t: int): (i: nat)
    ensures i < SLOTS
  {
    t % DAY / SLOT
  }

  /** Seven days of 48 slots. */
  type Week = w: seq<seq<bool>> | |w| == 7 && forall d | 0 <= d < 7 :: |w[d]| == SLOTS
    witness seq(7, _ => seq(SLOTS, _ => false))

  /** The schedule is active at the instant t. */
  predicate ActiveAt(week: Week, t: int) {
    week[Weekday(t)][SlotOf(t)]
  }

  /** A slot is exactly the half hour it names. */
  lemma SlotBounds(t: int)
    ensures DayZero(t) + SlotOf(t) * SLOT <= t < DayZero(t) + (SlotOf(t) + 1) * SLOT <= DayZero(t) + DAY
  {
  }

  /** The epoch began on a Thursday, at the midnight that begins it; each day is followed by the next weekday, and
      midnights are a day apart. */
  lemma WeekdaysFollow(t: int)
    ensures Weekday(0) == 4 && DayZero(0) == 0
    ensures Weekday(t + DAY) == (Weekday(t) + 1) % 7
    ensures DayZero(t + DAY) == DayZero(t) + DAY && SlotOf(t + DAY) == SlotOf(t)
    ensures Weekday(DayZero(t)) == Weekday(t) && SlotOf(DayZero(t)) == 0 && DayZero(t) % DAY == 0
  {
    assert (t + DAY) / DAY == t / DAY + 1;
    assert (t + DAY) % DAY == t % DAY;
    assert t / DAY * DAY / DAY == t / DAY;
    assert t / DAY * DAY % DAY == 0;
  }

  /** How far into its slot an instant is. */
  lemma IntoSlot(t: int)
    ensures t % SLOT == t - (DayZero(t) + SlotOf(t) * SLOT)
  {
    var slots := t / DAY * 48 + SlotOf(t);
    assert t == slots * SLOT + (t - (DayZero(t) + SlotOf(t) * SLOT));
  }

  /** The instants of slot i of t's day are those from its start to the next. */
  lemma InstantInSlot(t: int, i: nat, u: int)
    requires i < SLOTS && DayZero(t) + i * SLOT <= u < DayZero(t) + (i + 1) * SLOT
    ensures SlotOf(u) == i && DayZero(u) == DayZero(t) && Weekday(u) == Weekday(t)
  {
    assert u / DAY == t / DAY;
  }

  lemma SameDaySlotsOrdered(t: int, u: int)
    requires t <= u < DayZero(t) + DAY
    ensures DayZero(u) == DayZero(t) && Weekday(u) == Weekday(t) && SlotOf(t) <= SlotOf(u)
  {
    assert u / DAY == t / DAY;
  }
}

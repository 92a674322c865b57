/** The search for the next scheduled interval: the shift loops of the scheduler, and the search over
    plain sequences that they refine. */
module SlotSearch {
  import opened SlotMask
  import opened SlotCalendar

  // ---- the search on sequences ----

  datatype Found = Found(ret: int, startT: int, endT: int)

  /** The least active slot from i on, or 48. */
  function FirstActive(day: seq<bool>, i: nat): (j: nat)
    requires |day| == SLOTS && i <= SLOTS
    ensures i <= j <= SLOTS
    ensures j < SLOTS ==> day[j]
    ensures forall k | i <= k < j :: !day[k]
    decreases SLOTS - i
  {
    if i == SLOTS || day[i] then i else FirstActive(day, i + 1)
  }

  /** The last slot of the run of active slots that goes on from slot i. */
  function RunEnd(day: seq<bool>, i: nat): (m: nat)
    requires |day| == SLOTS && i < SLOTS
    ensures i <= m < SLOTS
    ensures forall k | i < k <= m :: day[k]
    ensures m + 1 < SLOTS ==> !day[m + 1]
    decreases SLOTS - i
  {
    if i + 1 < SLOTS && day[i + 1] then RunEnd(day, i + 1) else i
  }

  function Search(week: Week, now: int): Found {
    var day := week[Weekday(now)];
    var j := FirstActive(day, SlotOf(now));
    if j == SLOTS then Found(0, DayZero(now) + DAY, 0)
    else Found(1, if j == SlotOf(now) then now else DayZero(now) + j * SLOT, DayZero(now) + RunEnd(day, j) * SLOT)
  }

  /** The start is never in the past nor after midnight, the schedule is inactive at every instant before
      it, and active at it if the search succeeded. */
  lemma NothingActiveIsSkipped(week: Week, now: int)
    ensures var r := Search(week, now);
            && now <= r.startT <= DayZero(now) + DAY
            && (r.ret == 1 ==> r.startT < DayZero(now) + DAY && ActiveAt(week, r.startT))
            && forall t | now <= t < r.startT :: !ActiveAt(week, t)
  {
    var r := Search(week, now);
    var j := FirstActive(week[Weekday(now)], SlotOf(now));
    SlotBounds(now);
    if j < SLOTS && j > SlotOf(now) {
      InstantInSlot(now, j, r.startT);
    }
    forall t | now <= t < r.startT
      ensures !ActiveAt(week, t)
    {
      SameDaySlotsOrdered(now, t);
      SlotBounds(t);
    }
  }

  // ---- the code ----

  datatype BrokenDown = BrokenDown(hour: nat, min: nat, sec: nat, wday: nat)

  /** localtime_r in UTC. */
  function LocalTime(t: int): BrokenDown {
    BrokenDown(t % DAY / 3600, t % DAY % 3600 / 60, t % 60, Weekday(t))
  }

  /** The broken-down time adds up to the time since midnight. */
  lemma LocalTimeAddsUp(t: int)
    ensures var tm := LocalTime(t); tm.hour * 3600 + tm.min * 60 + tm.sec == t % DAY
  {
    MinuteOfDay(t / DAY, t % DAY);
    var s := t % DAY;
    assert s == s / 3600 * 3600 + s % 3600;
    assert s % 3600 == s % 3600 / 60 * 60 + s % 3600 % 60;
    MinuteOfHour(s / 3600, s % 3600);
  }

  lemma MinuteOfDay(days: int, s: nat)
    ensures (days * DAY + s) % 60 == s % 60
  {
    assert days * DAY + s == 60 * (1440 * days) + s;
  }

  lemma MinuteOfHour(hours: nat, s: nat)
    ensures (hours * 3600 + s) % 60 == s % 60
  {
    assert hours * 3600 + s == 60 * (60 * hours) + s;
  }

  /** `today_zero_t`: the time with its hour, minute and second set to zero. */
  function TodayZero(t: int): (z: int)
    ensures z == DayZero(t) <= t < z + DAY
  {
    var tm := LocalTime(t);
    LocalTimeAddsUp(t);
    t - tm.hour * 3600 - tm.min * 60 - tm.sec
  }

  /** `timeslot_get_offset`: the one-bit offset of the slot of t. */
  function TimeslotGetOffset(t: int): (offset: int64)
    ensures offset as int == Spot(SlotOf(t))
  {
    var tm := LocalTime(t);
    var i := tm.hour * 2 + tm.min / 30;
    assert i == SlotOf(t);
    assert Spot(0) == EV_SCHEDULE_INITIAL_SPOT as int by { SpotShifts(0); }
    ShrSpot(0, i);
    Shr(EV_SCHEDULE_INITIAL_SPOT, i)
  }

  /** The macro `timeslot_check`. It also accepts the empty offset. */
  predicate TimeslotCheck(slot: int64, off: int64)
    requires 0 <= off
  {
    And(slot as int, off as int) == off as int
  }

  /** The point query `g_time_mask_chk` on the mask of the day of now. */
  method TimeMaskChk(daySlot: int64, now: int) returns (ret: int)
    ensures ret == if Slots(daySlot as int)[SlotOf(now)] then 1 else 0
  {
    var nowOffset := TimeslotGetOffset(now);
    SpotShifts(SlotOf(now));
    AndSpot(daySlot as int, SlotOf(now));
    if nowOffset > 0 {
      if TimeslotCheck(daySlot, nowOffset) {
        return 1;
      } else {
        return 0;
      }
    }
    return 0;
  }

  /** One entry of the schedule table. */
  class GSchedule {
    const index: nat
    const daySlot: array<int64>
    var startT: int
    var endT: int

    constructor (index: nat, daySlot: array<int64>)
      requires daySlot.Length == 7
      ensures this.index == index && this.daySlot == daySlot && startT == endT == 0
    {
      this.index := index;
      this.daySlot := daySlot;
      startT, endT := 0, 0;
    }

    ghost predicate Valid() {
      daySlot.Length == 7
    }

    /** What the seven masks say. */
    ghost function Schedule(): Week
      requires Valid()
      reads daySlot
    {
      seq(7, d requires 0 <= d < 7 reads daySlot => Slots(daySlot[d] as int))
    }

    /** The schedule is active at an instant if the mask of its weekday has its slot. */
    lemma ScheduleShowsMasks()
      requires Valid()
      ensures forall t :: ActiveAt(Schedule(), t) <==> Slots(daySlot[Weekday(t)] as int)[SlotOf(t)]
    {
    }

    /** What that means for the search, in terms of the seven masks. */
    lemma SearchReadsMasks(now: int)
      requires Valid()
      ensures var r := Search(Schedule(), now);
              && (r.ret == 1 || (r.ret == 0 && r.startT == DayZero(now) + DAY))
              && (r.ret == 1 ==>
                    Slots(daySlot[Weekday(r.startT)] as int)[SlotOf(r.startT)] && Weekday(r.startT) == Weekday(now))
              && now <= r.startT
              && forall t | now <= t < r.startT :: !Slots(daySlot[Weekday(t)] as int)[SlotOf(t)]
    {
      ScheduleShowsMasks();
      NothingActiveIsSkipped(Schedule(), now);
      if Search(Schedule(), now).ret == 1 {
        SameDaySlotsOrdered(now, Search(Schedule(), now).startT);
      }
    }

    /** `timeslot_get_start_end`: shifts the offset back up to find its slot, then on down to the end
        of the run. `slot` is the slot the offset stands for; the code recovers it. */
    method TimeslotGetStartEnd(wday: int64, offsetCur: int64, now: int, ghost slot: nat) returns (i: nat)
      requires slot < SLOTS && offsetCur as int == Spot(slot)
      modifies this`startT, this`endT
      ensures i == slot
      ensures startT == DayZero(now) + slot * SLOT
      ensures endT == DayZero(now) + RunEnd(Slots(wday as int), slot) * SLOT
    {
      var tZero := TodayZero(now);
      var offset := offsetCur;
      i := 0;
      SpotShifts(slot);
      while EV_SCHEDULE_INITIAL_SPOT != offset
        invariant i <= slot && offset as int == Spot(slot - i)
        decreases slot - i
      {
        SpotShifts(slot - i);
        offset := offset * 2;
        i := i + 1;
      }
      SpotShifts(slot - i);
      startT := tZero + i * 1800;
      offset := offsetCur;
      var j := i;
      ghost var day := Slots(wday as int);
      while j < 48
        invariant i <= j < 48 && offset as int == Spot(j)
        invariant RunEnd(day, j) == RunEnd(day, slot)
        invariant startT == DayZero(now) + slot * SLOT
        decreases 48 - j
      {
        SpotShifts(j);
        AndSpot(wday as int, j + 1);
        offset := offset / 2;
        if And(wday as int, offset as int) == 0 {
          break;
        }
        j := j + 1;
      }
      endT := tZero + j * 1800;
    }

    /** `timeslot_get_next_start_end_t`, with one reading of the clock. */
    method TimeslotGetNextStartEnd(now: int) returns (ret: int)
      requires Valid()
      modifies this`startT, this`endT
      ensures Found(ret, startT, endT) == Search(Schedule(), now)
      ensures ret == 1 || (ret == 0 && startT == DayZero(now) + DAY)
      ensures ret == 1 ==> Slots(daySlot[Weekday(startT)] as int)[SlotOf(startT)] && Weekday(startT) == Weekday(now)
      ensures now <= startT && forall t | now <= t < startT :: !Slots(daySlot[Weekday(t)] as int)[SlotOf(t)]
    {
      var nowOffset := TimeslotGetOffset(now);
      var daySlot := this.daySlot[LocalTime(now).wday];
      ghost var day := Schedule()[Weekday(now)];
      assert day == Slots(daySlot as int);
      ghost var k := SlotOf(now);
      SpotShifts(k);
      AndSpot(daySlot as int, k);
      var asap := TimeslotCheck(daySlot, nowOffset);
      while nowOffset > 0
        invariant k <= SLOTS && nowOffset as int == Spot(k)
        invariant SlotOf(now) <= k && FirstActive(day, k) == FirstActive(day, SlotOf(now))
        decreases SLOTS - k
      {
        AndSpot(daySlot as int, k);
        if TimeslotCheck(daySlot, nowOffset) {
          var _ := TimeslotGetStartEnd(daySlot, nowOffset, now, k);
          if asap {
            startT := now;
          }
          SearchReadsMasks(now);
          return 1;
        }
        SpotShifts(k);
        nowOffset := nowOffset / 2;
        k := k + 1;
      }
      startT := TodayZero(now) + 86400;
      endT := 0;
      SearchReadsMasks(now);
      return 0;
    }
  }
}

/** The timer table, and how the scheduler arms the timer of a schedule. */
module TimerArming {
  import opened SlotMask
  import opened SlotCalendar
  import opened SlotSearch
  import opened SlotLaws

  const GTIMER_MAX := 20
  const GSCHEDULE_STRUCT_MAX := 10

  /** A callback; NULL is 0. */
  type Callback = nat
  const SCHEDULE_HANDLER: Callback := 1

  /** An expiry in seconds and nanoseconds; zero disarms. */
  datatype Expiry = Expiry(sec: int, nsec: int)

  datatype TimerEntry = TimerEntry(enabled: bool, value: Expiry, interval: Expiry, func: Callback, arg: int)

  class TimerTable {
    const entries: array<TimerEntry>
    /** What timer_settime was last told, per timer. */
    const armed: array<Expiry>

    ghost predicate Valid() {
      entries.Length == armed.Length == GTIMER_MAX
    }

    constructor ()
      ensures Valid() && fresh(entries) && fresh(armed)
      ensures forall i | 0 <= i < GTIMER_MAX :: !entries[i].enabled && armed[i] == Expiry(0, 0)
    {
      entries := new TimerEntry[GTIMER_MAX](_ => TimerEntry(false, Expiry(0, 0), Expiry(0, 0), 0, 0));
      armed := new Expiry[GTIMER_MAX](_ => Expiry(0, 0));
    }

    /** `g_timer_start`: arms one enabled timer, or for -1 all of them. */
    method GTimerStart(num: int)
      requires Valid() && -1 <= num < GTIMER_MAX
      modifies armed
      ensures forall i | 0 <= i < GTIMER_MAX ::
                armed[i] == if entries[i].enabled && (num == -1 || num == i) then entries[i].value else old(armed[i])
    {
      if num != -1 {
        if entries[num].enabled {
          armed[num] := entries[num].value;
        }
      } else {
        for i := 0 to GTIMER_MAX
          invariant forall k | 0 <= k < GTIMER_MAX ::
                      armed[k] == if entries[k].enabled && k < i then entries[k].value else old(armed[k])
        {
          if entries[i].enabled {
            armed[i] := entries[i].value;
          }
        }
      }
    }

    /** `g_timer_set`: fills one entry and arms it. */
    method GTimerSet(num: nat, sec: int, nsec: int, func: Callback, arg: int, repeat: bool) returns (ret: int)
      requires Valid() && num != GTIMER_MAX
      modifies entries, armed
      ensures ret == if func == 0 || num > GTIMER_MAX then -1 else 0
      ensures ret == -1 ==> entries[..] == old(entries[..]) && armed[..] == old(armed[..])
      ensures ret == 0 ==>
                var value := Expiry(sec, nsec);
                && entries[..] == old(entries[..])[num :=
                     TimerEntry(true, value, if repeat then value else Expiry(0, 0), func, arg)]
                && armed[..] == old(armed[..])[num := value]
    {
      if func == 0 {
        return -1;
      }
      if num > GTIMER_MAX {
        return -1;
      }
      var value := Expiry(sec, nsec);
      entries[num] := TimerEntry(true, value, if repeat then value else Expiry(0, 0), func, arg);
      GTimerStart(num);
      return 0;
    }
  }

  /** The expiry that fits the search: at once, as one millisecond, if the start is not in the future. */
  function Arming(week: Week, now: int): Expiry {
    var sleepSec := Search(week, now).startT - now;
    if sleepSec < 1 then Expiry(0, 1000000) else Expiry(sleepSec, 0)
  }

  /** `g_schedule_start_single`. */
  method GScheduleStartSingle(p: GSchedule, timers: TimerTable, now: int)
    requires p.Valid() && p.index < GSCHEDULE_STRUCT_MAX && timers.Valid()
    modifies p`startT, p`endT, timers.entries, timers.armed
    ensures exists ret :: Found(ret, p.startT, p.endT) == Search(p.Schedule(), now)
    ensures var active := Slots(p.daySlot[Weekday(now)] as int)[SlotOf(now)]; var a := timers.armed[p.index];
            if active then a == Expiry(0, 1000000) && p.startT == now
            else a == Expiry(p.startT - now, 0) && 1 <= a.sec <= DAY
    ensures p.startT == DayZero(now) + DAY
            || (p.startT < DayZero(now) + DAY && Slots(p.daySlot[Weekday(now)] as int)[SlotOf(p.startT)])
    ensures forall t | now <= t < p.startT :: !Slots(p.daySlot[Weekday(t)] as int)[SlotOf(t)]
    ensures timers.armed[..] == old(timers.armed[..])[p.index := Arming(p.Schedule(), now)]
    ensures timers.entries[..] == old(timers.entries[..])[p.index :=
              TimerEntry(true, Arming(p.Schedule(), now), Expiry(0, 0), SCHEDULE_HANDLER, p.index)]
  {
    p.ScheduleShowsMasks();
    ArmingAgreesWithPointQuery(p.Schedule(), now);
    NothingActiveIsSkipped(p.Schedule(), now);
    StartsNowIffActive(p.Schedule(), now);
    var ret := p.TimeslotGetNextStartEnd(now);
    var sleepSec := p.startT - now;
    if sleepSec < 1 {
      var _ := timers.GTimerSet(p.index, 0, 1000000, SCHEDULE_HANDLER, p.index, false);
    } else {
      var _ := timers.GTimerSet(p.index, sleepSec, 0, SCHEDULE_HANDLER, p.index, false);
    }
    assert Found(ret, p.startT, p.endT) == Search(p.Schedule(), now);
  }

  /** The start is now exactly if the point query on the mask of the day succeeds. */
  lemma StartsNowIffActive(week: Week, now: int)
    ensures Search(week, now).startT == now <==> ActiveAt(week, now)
  {
    NothingActiveIsSkipped(week, now);
    SlotBounds(now);
  }

  /** The timer is armed for one millisecond exactly if the point query succeeds and for the whole seconds
      up to the start otherwise; it is never disarmed, and never wakes after an active instant has begun. */
  lemma ArmingAgreesWithPointQuery(week: Week, now: int)
    ensures var a := Arming(week, now);
            && (ActiveAt(week, now) <==> a == Expiry(0, 1000000))
            && (!ActiveAt(week, now) ==> a == Expiry(Search(week, now).startT - now, 0) && 1 <= a.sec <= DAY)
            && a != Expiry(0, 0)
            && forall t | now <= t < now + a.sec :: !ActiveAt(week, t)
  {
    StartsNowIffActive(week, now);
    NothingActiveIsSkipped(week, now);
    SlotBounds(now);
  }
}

/** What the search for the next interval means, for every weekly schedule and every time. */
module SlotLaws {
  import opened SlotMask
  import opened SlotCalendar
  import opened SlotSearch

  /** It succeeds exactly if an active slot is left today; it then starts now if the schedule is active
      now, and else with the least later active slot; if it fails it names tomorrow's midnight. */
  lemma SearchIsRight(week: Week, now: int)
    ensures var day := week[Weekday(now)]; var r := Search(week, now);
            && (r.ret == 1 <==> exists j | SlotOf(now) <= j < SLOTS :: day[j])
            && (r.ret == 1 ==>
                  if ActiveAt(week, now) then r.startT == now
                  else exists j | SlotOf(now) < j < SLOTS ::
                         && day[j] && (forall k | SlotOf(now) <= k < j :: !day[k])
                         && r.startT == DayZero(now) + j * SLOT)
            && (r.ret != 1 ==> r == Found(0, DayZero(now) + DAY, 0))
  {
    var day := week[Weekday(now)];
    var j := FirstActive(day, SlotOf(now));
    if j < SLOTS {
      assert day[j];
    }
  }

  /** The end is the start of the last slot m of the run of active slots that the start lies in. */
  lemma EndIsLastSlotOfRun(week: Week, now: int)
    requires Search(week, now).ret == 1
    ensures var r := Search(week, now); var day := week[Weekday(now)]; var i := SlotOf(r.startT);
            exists m | i <= m < SLOTS ::
              && r.endT == DayZero(now) + m * SLOT
              && (forall k | i <= k <= m :: day[k])
              && (m + 1 == SLOTS || !day[m + 1])
  {
    var r := Search(week, now);
    var day := week[Weekday(now)];
    var j := FirstActive(day, SlotOf(now));
    if j > SlotOf(now) {
      InstantInSlot(now, j, r.startT);
    }
    var m := RunEnd(day, j);
    assert r.endT == DayZero(now) + m * SLOT;
  }

  /** A start that was not overridden by now: the duration is the length of the run less one slot. */
  lemma DurationOfFutureRun(week: Week, now: int)
    requires Search(week, now).ret == 1 && !ActiveAt(week, now)
    ensures var r := Search(week, now); var j := SlotOf(r.startT);
            r.startT > now && r.endT - r.startT == (RunEnd(week[Weekday(now)], j) - j) * SLOT
  {
    var j := FirstActive(week[Weekday(now)], SlotOf(now));
    SlotBounds(now);
    InstantInSlot(now, j, Search(week, now).startT);
  }

  /** The announced duration is negative exactly if the schedule is active now, for the last slot of a
      run, and that slot has already begun. */
  lemma EndBeforeStartIff(week: Week, now: int)
    requires Search(week, now).ret == 1
    ensures var r := Search(week, now); var day := week[Weekday(now)]; var i := SlotOf(now);
            r.endT < r.startT
            <==> ActiveAt(week, now) && (i + 1 == SLOTS || !day[i + 1]) && now % SLOT != 0
  {
    SlotBounds(now);
    IntoSlot(now);
    if !ActiveAt(week, now) {
      DurationOfFutureRun(week, now);
    }
  }

  /** One such call: a second into the only active slot of the week. */
  lemma EndsBeforeItStarts()
    ensures Search(ThursdayMidnights(), 1) == Found(1, 1, 0)
  {
    var day := ThursdayMidnights()[Weekday(1)];
    assert day[0] && !day[1];
  }

  /** A later call never announces an earlier start, on the same day or across days. */
  lemma SearchIsMonotone(week: Week, now: int, later: int)
    requires now <= later
    ensures Search(week, now).startT <= Search(week, later).startT
  {
    NothingActiveIsSkipped(week, now);
    NothingActiveIsSkipped(week, later);
    DaysOrdered(now, later);
  }

  lemma DaysOrdered(t: int, u: int)
    requires t <= u
    ensures DayZero(t) <= DayZero(u)
  {
  }

  /** Searching again at the announced start announces the same interval. */
  lemma SearchIsIdempotent(week: Week, now: int)
    requires Search(week, now).ret == 1
    ensures Search(week, Search(week, now).startT) == Search(week, now)
  {
    var r := Search(week, now);
    var j := FirstActive(week[Weekday(now)], SlotOf(now));
    if j > SlotOf(now) {
      InstantInSlot(now, j, r.startT);
    }
  }

  // ---- evaluating again at each midnight ----

  /** Evaluates at now and, as long as nothing is found, at most n times again at the midnight that the
      search returned. */
  function Iterate(week: Week, now: int, n: nat): Found
    decreases n
  {
    var r := Search(week, now);
    if r.ret == 1 || n == 0 then r else Iterate(week, r.startT, n - 1)
  }

  /** However often it is evaluated, nothing active is skipped; each failure moves on by one day. */
  lemma {:induction false} IterateSkipsNothing(week: Week, now: int, n: nat)
    ensures var r := Iterate(week, now, n);
            && now <= r.startT
            && (forall t | now <= t < r.startT :: !ActiveAt(week, t))
            && (r.ret == 1 ==> ActiveAt(week, r.startT) && r.startT < DayZero(now) + (n + 1) * DAY)
            && (r.ret != 1 ==> r.startT == DayZero(now) + (n + 1) * DAY)
    decreases n
  {
    NothingActiveIsSkipped(week, now);
    var r := Search(week, now);
    if r.ret != 1 && n > 0 {
      assert r.startT == DayZero(now) + DAY;
      assert DayZero(r.startT) == r.startT;
      IterateSkipsNothing(week, r.startT, n - 1);
    }
  }

  /** The instant at which slot j of weekday d comes round next, from tomorrow's midnight on. */
  function NextOccurrence(now: int, d: nat, j: nat): (t: int)
    requires d < 7 && j < SLOTS
    ensures Weekday(t) == d && SlotOf(t) == j
    ensures DayZero(now) + DAY <= t < DayZero(now) + 8 * DAY
  {
    var first := now / DAY + 1;
    var ahead := (d - (first + 4)) % 7;
    var t := (first + ahead) * DAY + j * SLOT;
    assert t / DAY == first + ahead;
    assert t % DAY == j * SLOT;
    t
  }

  /** A schedule that is ever active is found after at most seven evaluations more, and the start is then
      the first active instant from now on. */
  lemma SevenMoreSuffice(week: Week, now: int, d: nat, j: nat)
    requires d < 7 && j < SLOTS && week[d][j]
    ensures var r := Iterate(week, now, 7);
            && r.ret == 1 && now <= r.startT && ActiveAt(week, r.startT)
            && forall t | now <= t < r.startT :: !ActiveAt(week, t)
  {
    IterateSkipsNothing(week, now, 7);
    SlotBounds(now);
    assert ActiveAt(week, NextOccurrence(now, d, j));
  }

  /** Six are not always enough: the only active slot began today, before now. */
  lemma SixMayFail()
    ensures exists week: Week, now: int ::
              (exists d, j | 0 <= d < 7 && 0 <= j < SLOTS :: week[d][j]) && Iterate(week, now, 6).ret != 1
  {
    var week, now := ThursdayMidnights(), SLOT;
    assert week[4][0];
    IterateSkipsNothing(week, now, 6);
    if Iterate(week, now, 6).ret == 1 {
      NoThursdayMidnight(Iterate(week, now, 6).startT);
      assert false;
    }
  }

  /** The first half hour of every Thursday. */
  function ThursdayMidnights(): Week {
    seq(7, d => seq(SLOTS, i => d == 4 && i == 0))
  }

  lemma NoThursdayMidnight(t: int)
    requires SLOT <= t < 7 * DAY
    ensures !ActiveAt(ThursdayMidnights(), t)
  {
    if Weekday(t) == 4 {
      assert t / DAY == 0;
    }
  }
}

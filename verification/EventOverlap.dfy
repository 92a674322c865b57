/** The limit on recordings is a limit on the counter, not on the recordings: a run that has one more
    recording live than the limit allows. */
module EventOverlap {
  import opened Sums
  import opened SlotMask
  import opened SlotCalendar
  import opened EventRules
  import opened EventJobs
  import opened EventRuns

  lemma {:induction false} RunConcat(s: System, a: seq<Event>, b: seq<Event>)
    requires ValidRun(s, a) && ValidRun(Exec(s, a), b)
    ensures ValidRun(s, a + b) && Exec(s, a + b) == Exec(Exec(s, a), b)
    decreases |a|
  {
    if a == [] {
      assert a + b == b;
    } else {
      assert (a + b)[1..] == a[1..] + b;
      RunConcat(Apply(s, a[0]), a[1..], b);
    }
  }

  /** The leading bit of a number is set. */
  lemma {:induction false} LeadingBit(x: int, k: nat)
    requires Pow2(k) <= x < 2 * Pow2(k)
    ensures Bit(x, k)
    decreases k
  {
    if k > 0 {
      LeadingBit(x / 2, k - 1);
    }
  }

  /** The masks as `event_init` leaves them on a new system: one day of the motion trigger is set. */
  function InitialMasks(): seq<seq<int64>> {
    seq(TRIGGER_MAX, t => if t == TRIGGER_MOTION then [0, 0, 0xffff2000ffff, 0, 0, 0, 0] else [0, 0, 0, 0, 0, 0, 0])
  }

  const TUESDAY := 432000

  /** The motion rule runs in the first half hour of that day. */
  lemma MotionAllowed(now: int)
    requires TUESDAY <= now < TUESDAY + SLOT
    ensures MaskAllows(InitialMasks()[TRIGGER_MOTION], now)
  {
    assert now / DAY == 5;
    assert Weekday(now) == 2 && SlotOf(now) == 0;
    Pow2Of47();
    LeadingBit(0xffff2000ffff, 47);
  }

  /** The first quarter of an hour of a Tuesday, with the motion rule four seconds from having cooled down. */
  ghost predicate MotionReady(s: System) {
    && Shaped(s) && s.masks == InitialMasks()
    && IsMotion(s.rules[TRIGGER_MOTION].actFunc)
    && s.rules[TRIGGER_MOTION].actCount == 3 && s.rules[TRIGGER_MOTION].cooldown == 3
    && s.rules[TRIGGER_MOTION].lastRun <= s.clock && TUESDAY <= s.clock <= TUESDAY + 900
    && s.counters.mp4 <= RAM_MP4_MAX
  }

  function Launched(s: System): JobState { JobState(1, s.clock + 4, 3, false, [], 0) }

  /** Four seconds on a motion job starts. */
  lemma MotionLaunches(s: System) returns (s': System)
    requires MotionReady(s) && s.clock < TUESDAY + 800
    ensures Enabled(s, Push(1, s.clock + 4)) && s' == Apply(s, Push(1, s.clock + 4))
    ensures MotionReady(s')
    ensures Shaped(s') && s'.jobs == s.jobs + [Launched(s)] && s'.clock == s.clock + 4
    ensures s'.rules[1] == s.rules[1].(lastRun := s.clock + 4) && s'.masks == s.masks
    ensures s'.counters == s.counters.(running := s.counters.running + 1)
    ensures LiveCaptures(s') == LiveCaptures(s)
  {
    var now := s.clock + 4;
    MotionAllowed(now);
    assert Int32(now) == now;
    s' := Apply(s, Push(1, now));
    SumAppend(s.jobs, Launched(s), CaptureWeight);
  }

  /** One step of the job launched last. */
  lemma LastJobSteps(s: System) returns (s': System)
    requires Shaped(s) && s.jobs != [] && !s.jobs[|s.jobs| - 1].done
    ensures var k := |s.jobs| - 1;
            && Enabled(s, Act(k)) && s' == Apply(s, Act(k))
            && Shaped(s') && |s'.jobs| == |s.jobs| && s'.rules == s.rules && s'.masks == s.masks && s'.clock == s.clock
            && s'.jobs[k] == StepJob(s, k).0 && s'.counters == StepJob(s, k).1
            && LiveCaptures(s') == LiveCaptures(s) + CaptureWeight(s'.jobs[k]) - CaptureWeight(s.jobs[k])
  {
    var k := |s.jobs| - 1;
    s' := Apply(s, Act(k));
    SumUpdate(s.jobs, k, s'.jobs[k], CaptureWeight);
  }

  /** A motion job starts, takes its picture, starts its recording, and is left there. */
  lemma OneMoreRecording(s: System) returns (es: seq<Event>)
    requires MotionReady(s) && s.clock < TUESDAY + 800 && s.counters.mp4 < RAM_MP4_MAX
    ensures ValidRun(s, es) && MotionReady(Exec(s, es)) && Exec(s, es).clock == s.clock + 4
    ensures Exec(s, es).counters.mp4 == s.counters.mp4 + 1
    ensures LiveCaptures(Exec(s, es)) == LiveCaptures(s) + 1
  {
    var s1 := MotionLaunches(s);
    var s2 := LastJobSteps(s1);
    var s3 := LastJobSteps(s2);
    var k := |s.jobs|;
    es := [Push(1, s.clock + 4), Act(k), Act(k)];
    assert es[1..] == [Act(k), Act(k)] && es[1..][1..] == [Act(k)] && es[1..][1..][1..] == [];
    assert ValidRun(s3, []) && ValidRun(s2, es[1..][1..]) && ValidRun(s1, es[1..]);
    assert Exec(s, es) == Exec(s1, es[1..]) == Exec(s2, es[1..][1..]) == s3;
  }

  /** A motion job that comes when the counter is at the limit records nothing, and still gives one back. */
  lemma OnePassesBy(s: System) returns (es: seq<Event>)
    requires MotionReady(s) && s.clock < TUESDAY + 800 && s.counters.mp4 == RAM_MP4_MAX
    ensures ValidRun(s, es) && MotionReady(Exec(s, es)) && Exec(s, es).clock == s.clock + 4
    ensures Exec(s, es).counters.mp4 == RAM_MP4_MAX - 1
    ensures LiveCaptures(Exec(s, es)) == LiveCaptures(s)
  {
    var s1 := MotionLaunches(s);
    var s2 := LastJobSteps(s1);
    var s3 := LastJobSteps(s2);
    var k := |s.jobs|;
    var start := [Push(1, s.clock + 4), Act(k), Act(k)];
    assert start[1..] == [Act(k), Act(k)] && start[1..][1..] == [Act(k)] && start[1..][1..][1..] == [];
    assert ValidRun(s3, []) && ValidRun(s2, start[1..][1..]) && ValidRun(s1, start[1..]);
    assert Exec(s, start) == Exec(s1, start[1..]) == Exec(s2, start[1..][1..]) == s3;
    var finish := PassFinishes(s3);
    RunConcat(s, start, finish);
    es := start + finish;
  }

  lemma PassFinishes(s: System) returns (es: seq<Event>)
    requires MotionReady(s) && s.counters.mp4 == RAM_MP4_MAX && s.jobs != []
    requires var j := s.jobs[|s.jobs| - 1]; j.trigger == 1 && j.actCnt == 1 && !j.done && j.captures == 0
    ensures ValidRun(s, es) && MotionReady(Exec(s, es)) && Exec(s, es).clock == s.clock
    ensures Exec(s, es).counters.mp4 == RAM_MP4_MAX - 1
    ensures LiveCaptures(Exec(s, es)) == LiveCaptures(s)
  {
    var s1 := LastJobSteps(s);
    var s2 := LastJobSteps(s1);
    var k := |s.jobs| - 1;
    es := [Act(k), Act(k)];
    assert es[1..] == [Act(k)] && es[1..][1..] == [];
    assert ValidRun(s2, []) && ValidRun(s1, es[1..]);
    assert Exec(s, es) == Exec(s1, es[1..]) == s2;
  }

  /** A run goes on with a job that records, or with one that passes by, as the counter decides. */
  lemma OneMoreJob(s0: System, es: seq<Event>) returns (longer: seq<Event>)
    requires ValidRun(s0, es) && MotionReady(Exec(s0, es)) && Exec(s0, es).clock < TUESDAY + 800
    ensures ValidRun(s0, longer) && MotionReady(Exec(s0, longer)) && Exec(s0, longer).clock == Exec(s0, es).clock + 4
    ensures var s, s' := Exec(s0, es), Exec(s0, longer);
            if s.counters.mp4 < RAM_MP4_MAX
            then s'.counters.mp4 == s.counters.mp4 + 1 && LiveCaptures(s') == LiveCaptures(s) + 1
            else s'.counters.mp4 == RAM_MP4_MAX - 1 && LiveCaptures(s') == LiveCaptures(s)
  {
    var s := Exec(s0, es);
    var more: seq<Event>;
    if s.counters.mp4 < RAM_MP4_MAX {
      more := OneMoreRecording(s);
    } else {
      more := OnePassesBy(s);
    }
    RunConcat(s0, es, more);
    longer := es + more;
  }

  /** On a system that was just booted the limit holds in every run in which no more jobs than it allows run at
      once, and the counter is then exact. */
  lemma LimitHoldsForFewJobs(s0: System, es: seq<Event>)
    requires Init(s0) && s0.rules == InitialRules()
    requires ValidRun(s0, es) && NeverMoreJobsThan(s0, es, RAM_MP4_MAX)
    ensures ExactThroughout(s0, es) && LiveCaptures(Exec(s0, es)) <= RAM_MP4_MAX
  {
    InitHasInv(s0);
    var actions := InitialRules()[TRIGGER_MOTION].Actions();
    assert actions == [RamJpg] + [RamMp4] + [Ftp];
    assert actions[1..][1..] == [Ftp];
    assert Recordings(actions) == 1;
    ExactWhileWithinLimit(s0, es);
  }

  /** With five motion jobs it fails, each launched in time: three record, the fourth is turned away and
      finishes, and the fifth then starts the fourth recording while the first three go on. */
  lemma RecordingsCanExceedTheLimit()
    ensures exists es ::
              var s0 := System(InitialRules(), InitialMasks(), Counters(0, 0, 0), [], TUESDAY);
              Init(s0) && ValidRun(s0, es) && LiveCaptures(Exec(s0, es)) == RAM_MP4_MAX + 1
  {
    var s0 := System(InitialRules(), InitialMasks(), Counters(0, 0, 0), [], TUESDAY);
    assert Init(s0) && MotionReady(s0) && LiveCaptures(s0) == 0;
    var es := OneMoreJob(s0, []);
    es := OneMoreJob(s0, es);
    es := OneMoreJob(s0, es);
    es := OneMoreJob(s0, es);
    es := OneMoreJob(s0, es);
    assert LiveCaptures(Exec(s0, es)) == RAM_MP4_MAX + 1;
  }
}

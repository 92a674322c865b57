/** Many jobs at once: any interleaving of launches and of the atomic actions of the jobs in flight. */
module EventRuns {
  import opened Sums
  import opened SlotMask
  import opened SlotCalendar
  import opened EventRules

  /** One job: its countdown, and as history its launch time, the actions it ran and how many
      recordings it started. */
  datatype JobState = JobState(
    trigger: nat, startedAt: int, actCnt: nat, done: bool, ran: seq<Action>, captures: nat)

  datatype System = System(
    rules: seq<Rule>, masks: seq<seq<int64>>, counters: Counters, jobs: seq<JobState>, clock: int)

  datatype Event = Push(trigger: nat, now: int) | Act(job: nat)

  ghost predicate Shaped(s: System) {
    && |s.rules| == |s.masks| == TRIGGER_MAX
    && (forall t | 0 <= t < TRIGGER_MAX :: s.rules[t].Valid() && |s.masks[t]| == 7)
    && (forall k | 0 <= k < |s.jobs| ::
          s.jobs[k].trigger < TRIGGER_MAX && s.jobs[k].actCnt <= s.rules[s.jobs[k].trigger].actCount)
  }

  /** Booted and idle, at a time not before the epoch. */
  ghost predicate Init(s: System) {
    Shaped(s) && s.counters == Counters(0, 0, 0) && s.jobs == [] && 0 <= s.clock
  }

  ghost predicate Enabled(s: System, e: Event) {
    match e
    case Push(trigger, now) => trigger < TRIGGER_MAX && s.clock <= now
    case Act(k) => k < |s.jobs| && !s.jobs[k].done
  }

  /** The action that job k runs next. */
  ghost function NextAction(s: System, k: nat): Action
    requires Shaped(s) && k < |s.jobs| && 0 < s.jobs[k].actCnt
  {
    var rule := s.rules[s.jobs[k].trigger];
    rule.actFunc[rule.actCount - s.jobs[k].actCnt]
  }

  ghost predicate Captures(c: Counters, a: Action) {
    a == RamMp4 && c.mp4 < RAM_MP4_MAX
  }

  ghost function ApplyPush(s: System, trigger: nat, now: int): System
    requires Shaped(s) && Enabled(s, Push(trigger, now))
  {
    if Launches(s.rules[trigger], s.masks[trigger], now) then
      s.(rules := s.rules[trigger := s.rules[trigger].(lastRun := Int32(now))],
         counters := s.counters.(running := s.counters.running + 1),
         jobs := s.jobs + [JobState(trigger, now, s.rules[trigger].actCount, false, [], 0)],
         clock := now)
    else s.(clock := now)
  }

  /** The job after its step, and the counters. */
  ghost function StepJob(s: System, k: nat): (JobState, Counters)
    requires Shaped(s) && Enabled(s, Act(k))
  {
    var j := s.jobs[k];
    if j.actCnt == 0 then (j.(done := true), AfterCleanup(s.counters))
    else
      var a := NextAction(s, k);
      (j.(actCnt := j.actCnt - 1, ran := j.ran + [a],
          captures := if Captures(s.counters, a) then j.captures + 1 else j.captures),
       AfterAction(s.counters, a))
  }

  ghost function Apply(s: System, e: Event): System
    requires Shaped(s) && Enabled(s, e)
  {
    match e
    case Push(trigger, now) => ApplyPush(s, trigger, now)
    case Act(k) => s.(jobs := s.jobs[k := StepJob(s, k).0], counters := StepJob(s, k).1)
  }

  ghost predicate ValidRun(s: System, es: seq<Event>)
    decreases |es|
  {
    es == [] || (Shaped(s) && Enabled(s, es[0]) && ValidRun(Apply(s, es[0]), es[1..]))
  }

  ghost function Exec(s: System, es: seq<Event>): System
    requires ValidRun(s, es)
    decreases |es|
  {
    if es == [] then s else Exec(Apply(s, es[0]), es[1..])
  }

  // ---- the invariant ----

  ghost function UnfinishedWeight(j: JobState): nat { if j.done then 0 else 1 }

  /** The steps a job has still to take, its cleanup included. */
  ghost function RemainingWeight(j: JobState): nat { if j.done then 0 else j.actCnt + 1 }

  ghost function CaptureWeight(j: JobState): nat { if j.done then 0 else j.captures }

  /** A job has run exactly the first of its rule's actions, each once and in order. */
  ghost predicate InOrder(s: System, j: JobState)
    requires Shaped(s) && j.trigger < TRIGGER_MAX && j.actCnt <= s.rules[j.trigger].actCount
  {
    && j.ran == s.rules[j.trigger].Actions()[..s.rules[j.trigger].actCount - j.actCnt]
    && (j.done ==> j.actCnt == 0)
  }

  /** The launch times of one trigger, in the order of launch. */
  ghost function Times(jobs: seq<JobState>, trigger: nat): seq<int> {
    if jobs == [] then []
    else
      var j := jobs[|jobs| - 1];
      Times(jobs[..|jobs| - 1], trigger) + (if j.trigger == trigger then [j.startedAt] else [])
  }

  /** Launches come in order, and each that comes before 2038 more than a cooldown after the one before. */
  ghost predicate Spaced(ts: seq<int>, gap: int) {
    forall p | 0 <= p < |ts| - 1 ::
      ts[p] <= ts[p + 1] && (ts[p + 1] < 0x8000_0000 ==> ts[p + 1] - ts[p] >= gap)
  }

  /** The launch times of a rule up to now, and the last of them as the rule keeps it. */
  ghost predicate KeptBy(rule: Rule, ts: seq<int>, clock: int) {
    && Spaced(ts, rule.cooldown + 1)
    && (ts != [] ==> 0 <= ts[|ts| - 1] <= clock && rule.lastRun == Int32(ts[|ts| - 1]))
  }

  ghost predicate CooldownKept(s: System, t: nat)
    requires Shaped(s) && t < TRIGGER_MAX
  {
    KeptBy(s.rules[t], Times(s.jobs, t), s.clock)
  }

  ghost predicate Inv(s: System) {
    && Shaped(s) && 0 <= s.clock
    && (forall k | 0 <= k < |s.jobs| :: InOrder(s, s.jobs[k]))
    && s.counters.running == Sum(s.jobs, UnfinishedWeight)
    && 0 <= s.counters.mp4 <= RAM_MP4_MAX
    && 0 <= s.counters.jpg <= RAM_JPG_MAX + 1
    && (forall t | 0 <= t < TRIGGER_MAX :: CooldownKept(s, t))
  }

  lemma InitHasInv(s: System)
    requires Init(s)
    ensures Inv(s)
  {
  }

  lemma {:induction false} SumAppend<T>(xs: seq<T>, x: T, weight: T -> nat)
    ensures Sum(xs + [x], weight) == Sum(xs, weight) + weight(x)
  {
    if xs == [] {
      assert xs + [x] == [x];
    } else {
      assert (xs + [x])[1..] == xs[1..] + [x];
      SumAppend(xs[1..], x, weight);
    }
  }

  /** A step of a job changes no launch time. */
  lemma {:induction false} TimesUpdate(jobs: seq<JobState>, k: nat, j: JobState, t: nat)
    requires k < |jobs| && j.trigger == jobs[k].trigger && j.startedAt == jobs[k].startedAt
    ensures Times(jobs[k := j], t) == Times(jobs, t)
    decreases |jobs|
  {
    var n := |jobs| - 1;
    if k == n {
      assert jobs[k := j][..n] == jobs[..n];
    } else {
      assert jobs[k := j][..n] == jobs[..n][k := j];
      TimesUpdate(jobs[..n], k, j, t);
    }
  }

  lemma StepKeepsInv(s: System, e: Event)
    requires Inv(s) && Enabled(s, e)
    ensures Inv(Apply(s, e))
  {
    match e
    case Push(trigger, now) => PushKeepsInv(s, trigger, now);
    case Act(k) => ActKeepsInv(s, k);
  }

  lemma PushKeepsInv(s: System, trigger: nat, now: int)
    requires Inv(s) && Enabled(s, Push(trigger, now))
    ensures Inv(ApplyPush(s, trigger, now))
  {
    var s' := ApplyPush(s, trigger, now);
    PushKeepsOrder(s, trigger, now);
    if Launches(s.rules[trigger], s.masks[trigger], now) {
      SumAppend(s.jobs, s'.jobs[|s.jobs|], UnfinishedWeight);
    }
    forall t | 0 <= t < TRIGGER_MAX
      ensures CooldownKept(s', t)
    {
      PushKeepsCooldown(s, trigger, now, t);
    }
  }

  lemma PushKeepsOrder(s: System, trigger: nat, now: int)
    requires Shaped(s) && Enabled(s, Push(trigger, now))
    requires forall k | 0 <= k < |s.jobs| :: InOrder(s, s.jobs[k])
    ensures var s' := ApplyPush(s, trigger, now);
            Shaped(s') && forall k | 0 <= k < |s'.jobs| :: InOrder(s', s'.jobs[k])
  {
    var s' := ApplyPush(s, trigger, now);
    forall k | 0 <= k < |s'.jobs|
      ensures InOrder(s', s'.jobs[k])
    {
      assert k < |s.jobs| ==> InOrder(s, s.jobs[k]);
    }
  }

  /** A new launch comes last in its trigger's list, before 2038 a cooldown after the one before. */
  lemma PushKeepsCooldown(s: System, trigger: nat, now: int, t: nat)
    requires Shaped(s) && 0 <= s.clock && t < TRIGGER_MAX && CooldownKept(s, t)
    requires Enabled(s, Push(trigger, now)) && Shaped(ApplyPush(s, trigger, now))
    ensures CooldownKept(ApplyPush(s, trigger, now), t)
  {
    if Launches(s.rules[trigger], s.masks[trigger], now) {
      TimesAppend(s.jobs, JobState(trigger, now, s.rules[trigger].actCount, false, [], 0), t);
      if t == trigger {
        LaunchKeepsSpacing(s.rules[t], Times(s.jobs, t), s.clock, now);
      }
    }
  }

  lemma LaunchKeepsSpacing(rule: Rule, ts: seq<int>, clock: int, now: int)
    requires KeptBy(rule, ts, clock) && 0 <= clock <= now && CooledDown(rule, now)
    ensures KeptBy(rule.(lastRun := Int32(now)), ts + [now], now)
  {
    if ts != [] {
      if now < 0x8000_0000 {
        Int32OfInt(ts[|ts| - 1]);
      }
      SpacedAppend(ts, rule.cooldown + 1, now);
    }
  }

  lemma TimesAppend(jobs: seq<JobState>, j: JobState, t: nat)
    ensures Times(jobs + [j], t) == Times(jobs, t) + (if j.trigger == t then [j.startedAt] else [])
  {
    assert (jobs + [j])[..|jobs|] == jobs;
  }

  lemma SpacedAppend(ts: seq<int>, gap: int, t: int)
    requires Spaced(ts, gap) && ts != [] && ts[|ts| - 1] <= t
    requires t < 0x8000_0000 ==> t - ts[|ts| - 1] >= gap
    ensures Spaced(ts + [t], gap)
  {
    var us := ts + [t];
    forall p | 0 <= p < |us| - 1
      ensures us[p] <= us[p + 1] && (us[p + 1] < 0x8000_0000 ==> us[p + 1] - us[p] >= gap)
    {
      assert p < |ts| - 1 ==> ts[p] <= ts[p + 1];
    }
  }

  lemma Int32OfInt(t: int)
    requires 0 <= t < 0x8000_0000
    ensures Int32(t) == t
  {
  }

  lemma ActKeepsInv(s: System, k: nat)
    requires Inv(s) && Enabled(s, Act(k))
    ensures Inv(Apply(s, Act(k)))
  {
    var s' := Apply(s, Act(k));
    ActKeepsOrder(s, k);
    SumUpdate(s.jobs, k, s'.jobs[k], UnfinishedWeight);
    ActKeepsCounters(s, k);
    forall t | 0 <= t < TRIGGER_MAX
      ensures CooldownKept(s', t)
    {
      ActKeepsCooldown(s, k, t);
    }
  }

  lemma ActKeepsCooldown(s: System, k: nat, t: nat)
    requires Shaped(s) && Enabled(s, Act(k)) && t < TRIGGER_MAX && CooldownKept(s, t) && Shaped(Apply(s, Act(k)))
    ensures CooldownKept(Apply(s, Act(k)), t)
  {
    TimesUpdate(s.jobs, k, Apply(s, Act(k)).jobs[k], t);
  }

  lemma ActKeepsOrder(s: System, k: nat)
    requires Shaped(s) && Enabled(s, Act(k))
    requires forall i | 0 <= i < |s.jobs| :: InOrder(s, s.jobs[i])
    ensures var s' := Apply(s, Act(k));
            Shaped(s') && forall i | 0 <= i < |s'.jobs| :: InOrder(s', s'.jobs[i])
  {
    var s' := Apply(s, Act(k));
    forall i | 0 <= i < |s.jobs|
      ensures InOrder(s', s'.jobs[i])
    {
      assert InOrder(s, s.jobs[i]);
    }
  }

  lemma ActKeepsCounters(s: System, k: nat)
    requires Shaped(s) && Enabled(s, Act(k))
    requires 0 <= s.counters.mp4 <= RAM_MP4_MAX && 0 <= s.counters.jpg <= RAM_JPG_MAX + 1
    ensures var s' := Apply(s, Act(k));
            && 0 <= s'.counters.mp4 <= RAM_MP4_MAX && 0 <= s'.counters.jpg <= RAM_JPG_MAX + 1
            && s'.counters.running == s.counters.running + UnfinishedWeight(s'.jobs[k]) - UnfinishedWeight(s.jobs[k])
  {
  }

  lemma {:induction false} RunKeepsInv(s: System, es: seq<Event>)
    requires Inv(s) && ValidRun(s, es)
    ensures Inv(Exec(s, es)) && SameRules(s, Exec(s, es))
    decreases |es|
  {
    if es != [] {
      StepKeepsInv(s, es[0]);
      RunKeepsInv(Apply(s, es[0]), es[1..]);
    }
  }

  /** Rules change only in the time of their last run. */
  ghost predicate SameRules(s: System, s': System) {
    && |s.rules| == |s'.rules|
    && forall t | 0 <= t < |s.rules| :: s'.rules[t] == s.rules[t].(lastRun := s'.rules[t].lastRun)
  }

  // ---- what holds in every run ----

  /** The counters in every state of every run: running is the number of unfinished jobs, recordings stay
      within their limit, and pictures go one beyond theirs, as each counts twice. */
  lemma CountersInEveryRun(s0: System, es: seq<Event>)
    requires Init(s0) && ValidRun(s0, es)
    ensures var s := Exec(s0, es);
            && s.counters.running == Sum(s.jobs, UnfinishedWeight)
            && 0 <= s.counters.mp4 <= RAM_MP4_MAX
            && 0 <= s.counters.jpg <= RAM_JPG_MAX + 1
  {
    InitHasInv(s0);
    RunKeepsInv(s0, es);
  }

  /** A finished job has run its rule's actions in order, each exactly once, whatever ran between. */
  lemma FinishedJobsRanTheirRule(s0: System, es: seq<Event>, k: nat)
    requires Init(s0) && ValidRun(s0, es) && k < |Exec(s0, es).jobs| && Exec(s0, es).jobs[k].done
    ensures var j := Exec(s0, es).jobs[k];
            j.trigger < |s0.rules| && s0.rules[j.trigger].Valid()
            && j.ran == s0.rules[j.trigger].actFunc[..s0.rules[j.trigger].actCount]
  {
    InitHasInv(s0);
    RunKeepsInv(s0, es);
    assert InOrder(Exec(s0, es), Exec(s0, es).jobs[k]);
  }

  // ---- cooldown ----

  ghost function CountWithin(ts: seq<int>, a: int, b: int): nat {
    if ts == [] then 0
    else CountWithin(ts[..|ts| - 1], a, b) + (if a <= ts[|ts| - 1] <= b then 1 else 0)
  }

  lemma {:induction false} SpacedWindow(ts: seq<int>, gap: nat, a: int, b: int)
    requires Spaced(ts, gap) && CountWithin(ts, a, b) > 0 && b < 0x8000_0000
    ensures ts != [] && (CountWithin(ts, a, b) - 1) * gap <= b - a
    ensures (CountWithin(ts, a, b) - 1) * gap <= ts[|ts| - 1] - a
    decreases |ts|
  {
    var n := |ts| - 1;
    var c := CountWithin(ts[..n], a, b);
    if c > 0 {
      SpacedWindow(ts[..n], gap, a, b);
      assert ts[n - 1] <= ts[n];
      OneMore(c, gap);
    } else {
      assert CountWithin(ts, a, b) - 1 == 0;
    }
  }

  lemma OneMore(c: nat, gap: nat)
    ensures c * gap == (c - 1) * gap + gap
  {
  }

  /** In an interval [a, b] whose times fit an int k launches of one trigger need k - 1 whole cooldowns. */
  lemma LaunchRateIsLimited(s0: System, es: seq<Event>, trigger: nat, a: int, b: int)
    requires Init(s0) && ValidRun(s0, es) && trigger < TRIGGER_MAX && b < 0x8000_0000
    ensures var k := CountWithin(Times(Exec(s0, es).jobs, trigger), a, b);
            k > 0 ==> (k - 1) * (s0.rules[trigger].cooldown + 1) <= b - a
  {
    InitHasInv(s0);
    RunKeepsInv(s0, es);
    var s := Exec(s0, es);
    assert CooldownKept(s, trigger);
    if CountWithin(Times(s.jobs, trigger), a, b) > 0 {
      SpacedWindow(Times(s.jobs, trigger), s0.rules[trigger].cooldown + 1, a, b);
    }
  }

  // ---- who is launched ----

  /** Every job was launched at a time that the mask of its trigger allows, by a rule with actions. */
  ghost predicate AllAllowed(s: System)
    requires Shaped(s)
  {
    forall k | 0 <= k < |s.jobs| ::
      var j := s.jobs[k];
      s.rules[j.trigger].actCount > 0 && Slots(s.masks[j.trigger][Weekday(j.startedAt)] as int)[SlotOf(j.startedAt)]
  }

  lemma StepKeepsAllowed(s: System, e: Event)
    requires Shaped(s) && AllAllowed(s) && Enabled(s, e) && Shaped(Apply(s, e))
    ensures AllAllowed(Apply(s, e)) && Apply(s, e).masks == s.masks
  {
  }

  lemma {:induction false} RunKeepsAllowed(s: System, es: seq<Event>)
    requires Inv(s) && AllAllowed(s) && ValidRun(s, es)
    ensures Shaped(Exec(s, es)) && AllAllowed(Exec(s, es)) && Exec(s, es).masks == s.masks
    decreases |es|
  {
    if es != [] {
      StepKeepsInv(s, es[0]);
      StepKeepsAllowed(s, es[0]);
      RunKeepsAllowed(Apply(s, es[0]), es[1..]);
    }
  }

  lemma EveryJobWasAllowed(s0: System, es: seq<Event>, k: nat)
    requires Init(s0) && ValidRun(s0, es) && k < |Exec(s0, es).jobs|
    ensures var j := Exec(s0, es).jobs[k];
            && j.trigger < |s0.rules| == |s0.masks| && s0.rules[j.trigger].actCount > 0
            && |s0.masks[j.trigger]| == 7
            && Slots(s0.masks[j.trigger][Weekday(j.startedAt)] as int)[SlotOf(j.startedAt)]
  {
    InitHasInv(s0);
    RunKeepsInv(s0, es);
    RunKeepsAllowed(s0, es);
  }

  /** `last` is the latest time at which a job of the trigger started. */
  ghost predicate IsLatest(jobs: seq<JobState>, t: nat, last: int) {
    && (exists k | 0 <= k < |jobs| :: jobs[k].trigger == t && jobs[k].startedAt == last)
    && (forall k | 0 <= k < |jobs| && jobs[k].trigger == t :: jobs[k].startedAt <= last)
  }

  lemma SpacedPrefix(ts: seq<int>, gap: int, t: int)
    requires Spaced(ts + [t], gap)
    ensures Spaced(ts, gap) && (ts != [] ==> ts[|ts| - 1] <= t)
  {
    var us := ts + [t];
    forall p | 0 <= p < |ts| - 1
      ensures ts[p] <= ts[p + 1] && (ts[p + 1] < 0x8000_0000 ==> ts[p + 1] - ts[p] >= gap)
    {
      assert us[p] == ts[p] && us[p + 1] == ts[p + 1];
    }
    if ts != [] {
      assert us[|ts| - 1] <= us[|ts|];
    }
  }

  ghost predicate NoneOf(jobs: seq<JobState>, t: nat) {
    forall k | 0 <= k < |jobs| :: jobs[k].trigger != t
  }

  lemma OtherJobAppended(jobs: seq<JobState>, j: JobState, t: nat, last: int)
    requires j.trigger != t
    ensures IsLatest(jobs, t, last) ==> IsLatest(jobs + [j], t, last)
    ensures NoneOf(jobs, t) ==> NoneOf(jobs + [j], t)
  {
    var longer := jobs + [j];
    assert longer[|jobs|] == j && forall k | 0 <= k < |jobs| :: longer[k] == jobs[k];
  }

  lemma OwnJobAppended(jobs: seq<JobState>, j: JobState, t: nat, last: int)
    requires j.trigger == t && (NoneOf(jobs, t) || (IsLatest(jobs, t, last) && last <= j.startedAt))
    ensures IsLatest(jobs + [j], t, j.startedAt)
  {
    var longer := jobs + [j];
    assert longer[|jobs|] == j && forall k | 0 <= k < |jobs| :: longer[k] == jobs[k];
  }

  /** The last launch time of a trigger is the latest of its jobs. */
  ghost predicate LastIsLatest(jobs: seq<JobState>, t: nat) {
    var ts := Times(jobs, t);
    if ts == [] then NoneOf(jobs, t) else IsLatest(jobs, t, ts[|ts| - 1])
  }

  lemma LastAppended(jobs: seq<JobState>, j: JobState, t: nat, gap: int)
    requires LastIsLatest(jobs, t)
    requires j.trigger == t ==> Spaced(Times(jobs, t) + [j.startedAt], gap)
    ensures LastIsLatest(jobs + [j], t)
  {
    var ts := Times(jobs, t);
    var last := if ts == [] then 0 else ts[|ts| - 1];
    TimesAppend(jobs, j, t);
    if j.trigger == t {
      SpacedPrefix(ts, gap, j.startedAt);
      OwnJobAppended(jobs, j, t, last);
    } else {
      assert ts + [] == ts;
      OtherJobAppended(jobs, j, t, last);
    }
  }

  lemma {:induction false} LastOfTimes(jobs: seq<JobState>, t: nat, gap: int)
    requires Spaced(Times(jobs, t), gap)
    ensures LastIsLatest(jobs, t)
    decreases |jobs|
  {
    if jobs != [] {
      var shorter, j := jobs[..|jobs| - 1], jobs[|jobs| - 1];
      assert jobs == shorter + [j];
      TimesAppend(shorter, j, t);
      if j.trigger == t {
        SpacedPrefix(Times(shorter, t), gap, j.startedAt);
      } else {
        assert Times(shorter, t) + [] == Times(shorter, t);
      }
      LastOfTimes(shorter, t, gap);
      LastAppended(shorter, j, t, gap);
    }
  }

  lemma StepLeavesRule(s: System, e: Event, t: nat)
    requires Shaped(s) && Enabled(s, e) && t < TRIGGER_MAX && Shaped(Apply(s, e))
    ensures Times(s.jobs, t) <= Times(Apply(s, e).jobs, t)
    ensures Times(Apply(s, e).jobs, t) == Times(s.jobs, t) ==> Apply(s, e).rules[t].lastRun == s.rules[t].lastRun
  {
    match e
    case Push(trigger, now) =>
      if Launches(s.rules[trigger], s.masks[trigger], now) {
        TimesAppend(s.jobs, JobState(trigger, now, s.rules[trigger].actCount, false, [], 0), t);
      }
    case Act(k) => TimesUpdate(s.jobs, k, Apply(s, e).jobs[k], t);
  }

  /** A trigger that has launched nothing keeps the time of its last run. */
  lemma {:induction false} UntouchedRule(s: System, es: seq<Event>, t: nat)
    requires Inv(s) && ValidRun(s, es) && t < TRIGGER_MAX
    ensures Shaped(Exec(s, es)) && Times(s.jobs, t) <= Times(Exec(s, es).jobs, t)
    ensures Times(Exec(s, es).jobs, t) == [] ==> Exec(s, es).rules[t].lastRun == s.rules[t].lastRun
    decreases |es|
  {
    if es != [] {
      StepKeepsInv(s, es[0]);
      StepLeavesRule(s, es[0], t);
      UntouchedRule(Apply(s, es[0]), es[1..], t);
    }
  }

  /** The cooldown is over since every job of the trigger. */
  ghost predicate AllCooledDown(jobs: seq<JobState>, t: nat, cooldown: int, now: int) {
    forall k | 0 <= k < |jobs| && jobs[k].trigger == t :: now - jobs[k].startedAt > cooldown
  }

  lemma LatestDecides(jobs: seq<JobState>, t: nat, last: int, cooldown: int, now: int)
    requires IsLatest(jobs, t, last)
    ensures now - last > cooldown <==> AllCooledDown(jobs, t, cooldown, now)
    ensures !NoneOf(jobs, t)
  {
  }

  /** The time that a rule keeps is that of the latest job of its trigger, or still the first one. */
  lemma CooledDownIff(s: System, t: nat, first: int, now: int)
    requires Shaped(s) && t < TRIGGER_MAX && CooldownKept(s, t) && s.clock < 0x8000_0000
    requires Times(s.jobs, t) == [] ==> s.rules[t].lastRun == first
    ensures CooledDown(s.rules[t], now) <==>
            && AllCooledDown(s.jobs, t, s.rules[t].cooldown, now)
            && (NoneOf(s.jobs, t) ==> now - first > s.rules[t].cooldown)
  {
    var ts := Times(s.jobs, t);
    LastOfTimes(s.jobs, t, s.rules[t].cooldown + 1);
    if ts != [] {
      Int32OfInt(ts[|ts| - 1]);
      LatestDecides(s.jobs, t, ts[|ts| - 1], s.rules[t].cooldown, now);
    }
  }

  /** In terms of what has happened: a push before the times outgrow an int launches a job, with all actions of
      its rule, if and only if the rule has actions, the weekly mask has the slot of the time, and the cooldown is
      over since every job of the trigger so far. */
  lemma PushLaunchesIff(s0: System, es: seq<Event>, trigger: nat, now: int)
    requires Init(s0) && ValidRun(s0, es) && Enabled(Exec(s0, es), Push(trigger, now))
    requires Exec(s0, es).clock < 0x8000_0000
    ensures var s := Exec(s0, es); var rule := s0.rules[trigger];
            && Shaped(s)
            && var due :=
                 && rule.actCount > 0
                 && Slots(s0.masks[trigger][Weekday(now)] as int)[SlotOf(now)]
                 && (forall k | 0 <= k < |s.jobs| && s.jobs[k].trigger == trigger ::
                       now - s.jobs[k].startedAt > rule.cooldown)
                 && ((forall k | 0 <= k < |s.jobs| :: s.jobs[k].trigger != trigger) ==>
                       now - rule.lastRun > rule.cooldown);
               Apply(s, Push(trigger, now)).jobs ==
               s.jobs + (if due then [JobState(trigger, now, rule.actCount, false, [], 0)] else [])
  {
    InitHasInv(s0);
    RunKeepsInv(s0, es);
    RunKeepsAllowed(s0, es);
    UntouchedRule(s0, es, trigger);
    CooledDownIff(Exec(s0, es), trigger, s0.rules[trigger].lastRun, now);
  }

  // ---- jobs terminate ----

  /** Without new launches every step brings the end one step nearer, and the end is quiet: once no step
      is possible all jobs are done and running is zero. */
  lemma {:induction false} JobsTerminate(s: System, es: seq<Event>)
    requires Inv(s) && ValidRun(s, es) && forall i | 0 <= i < |es| :: es[i].Act?
    ensures |es| + Sum(Exec(s, es).jobs, RemainingWeight) == Sum(s.jobs, RemainingWeight)
    ensures |es| == Sum(s.jobs, RemainingWeight) <==> forall k | 0 <= k < |Exec(s, es).jobs| :: Exec(s, es).jobs[k].done
    ensures (forall k | 0 <= k < |Exec(s, es).jobs| :: Exec(s, es).jobs[k].done) ==> Exec(s, es).counters.running == 0
    decreases |es|
  {
    if es == [] {
      if forall k | 0 <= k < |s.jobs| :: s.jobs[k].done {
        SumConstant(s.jobs, RemainingWeight, 0);
        SumConstant(s.jobs, UnfinishedWeight, 0);
      } else {
        var k :| 0 <= k < |s.jobs| && !s.jobs[k].done;
        SumAtLeast(s.jobs, k, RemainingWeight);
      }
    } else {
      StepKeepsInv(s, es[0]);
      SumUpdate(s.jobs, es[0].job, Apply(s, es[0]).jobs[es[0].job], RemainingWeight);
      JobsTerminate(Apply(s, es[0]), es[1..]);
    }
  }

  ghost function Repeat(e: Event, n: nat): seq<Event> {
    seq(n, _ => e)
  }

  /** Left alone, a job takes the counters where the recursion of the action functions takes them. */
  lemma {:induction false} AloneIsTheRecursion(s: System, k: nat)
    requires Shaped(s) && k < |s.jobs| && !s.jobs[k].done
    ensures var rule := s.rules[s.jobs[k].trigger]; var es := Repeat(Act(k), s.jobs[k].actCnt + 1);
            && ValidRun(s, es)
            && Exec(s, es).counters == AfterJob(s.counters, rule.Left(s.jobs[k].actCnt))
    decreases s.jobs[k].actCnt
  {
    var n := s.jobs[k].actCnt;
    var rule := s.rules[s.jobs[k].trigger];
    var s' := Apply(s, Act(k));
    assert Repeat(Act(k), n + 1)[1..] == Repeat(Act(k), n);
    if n > 0 {
      AloneIsTheRecursion(s', k);
      assert rule.Left(n)[1..] == rule.Left(n - 1);
    }
  }

  // ---- what the recording counter counts ----

  /** The recordings started by jobs that are not finished. */
  ghost function LiveCaptures(s: System): nat {
    Sum(s.jobs, CaptureWeight)
  }

  /** The counter of recordings says how many are live. */
  ghost predicate Exact(s: System) {
    s.counters.mp4 == LiveCaptures(s)
  }

  ghost predicate ExactThroughout(s: System, es: seq<Event>)
    requires ValidRun(s, es)
    decreases |es|
  {
    Exact(s) && (es == [] || ExactThroughout(Apply(s, es[0]), es[1..]))
  }

  /** How many recordings a list of actions asks for. */
  ghost function Recordings(actions: seq<Action>): nat {
    if actions == [] then 0 else (if actions[0] == RamMp4 then 1 else 0) + Recordings(actions[1..])
  }

  /** The actions that job k has still to run. */
  ghost function ToRun(s: System, k: nat): seq<Action>
    requires Shaped(s) && k < |s.jobs|
  {
    s.rules[s.jobs[k].trigger].Left(s.jobs[k].actCnt)
  }

  /** Every job in flight has started its one recording or has still to ask for it. */
  ghost predicate NoneTurnedAway(s: System)
    requires Shaped(s)
  {
    forall k | 0 <= k < |s.jobs| && !s.jobs[k].done :: s.jobs[k].captures + Recordings(ToRun(s, k)) == 1
  }

  ghost predicate ActsOnly(es: seq<Event>) {
    forall e | e in es :: e.Act?
  }

  /** A step of job k takes the first of its actions, and leaves the other jobs alone. */
  lemma StepTakesFirst(s: System, k: nat)
    requires Shaped(s) && Enabled(s, Act(k)) && Shaped(Apply(s, Act(k)))
    ensures var s' := Apply(s, Act(k));
            && |s'.jobs| == |s.jobs|
            && (s.jobs[k].actCnt > 0 ==> ToRun(s, k) == [NextAction(s, k)] + ToRun(s', k))
            && (forall i | 0 <= i < |s.jobs| && i != k :: s'.jobs[i] == s.jobs[i] && ToRun(s', i) == ToRun(s, i))
  {
  }

  /** Among jobs of which none was turned away, one that has not recorded leaves room below the number of
      jobs running. */
  lemma RoomForTheNext(s: System, k: nat)
    requires Inv(s) && NoneTurnedAway(s) && k < |s.jobs| && !s.jobs[k].done && s.jobs[k].captures == 0
    ensures LiveCaptures(s) < s.counters.running
  {
    forall i | 0 <= i < |s.jobs|
      ensures CaptureWeight(s.jobs[i]) <= UnfinishedWeight(s.jobs[i])
    {
      assert !s.jobs[i].done ==> s.jobs[i].captures + Recordings(ToRun(s, i)) == 1;
    }
    assert CaptureWeight(s.jobs[k]) < UnfinishedWeight(s.jobs[k]);
    SumDominated(s.jobs, CaptureWeight, UnfinishedWeight);
  }

  /** A step of a job that is not turned away keeps the counter exact. */
  lemma StepStaysExact(s: System, k: nat)
    requires Inv(s) && NoneTurnedAway(s) && Exact(s) && Enabled(s, Act(k))
    requires s.jobs[k].actCnt > 0 && NextAction(s, k) == RamMp4 ==> s.counters.mp4 < RAM_MP4_MAX
    ensures var s' := Apply(s, Act(k));
            Inv(s') && NoneTurnedAway(s') && Exact(s') && s'.counters.running <= s.counters.running
            && (s.jobs[k].actCnt > 0 ==> s'.counters.running == s.counters.running)
  {
    StepKeepsInv(s, Act(k));
    StepTurnsNobodyAway(s, k);
    assert s.jobs[k].captures + Recordings(ToRun(s, k)) == 1;
    CountsStayEqual(s, k);
  }

  lemma StepTurnsNobodyAway(s: System, k: nat)
    requires Shaped(s) && NoneTurnedAway(s) && Enabled(s, Act(k)) && Shaped(Apply(s, Act(k)))
    requires s.jobs[k].actCnt > 0 && NextAction(s, k) == RamMp4 ==> s.counters.mp4 < RAM_MP4_MAX
    ensures NoneTurnedAway(Apply(s, Act(k)))
  {
    var s' := Apply(s, Act(k));
    StepTakesFirst(s, k);
    forall i | 0 <= i < |s'.jobs| && !s'.jobs[i].done
      ensures s'.jobs[i].captures + Recordings(ToRun(s', i)) == 1
    {
      assert !s.jobs[i].done ==> s.jobs[i].captures + Recordings(ToRun(s, i)) == 1;
    }
  }

  lemma CountsStayEqual(s: System, k: nat)
    requires Inv(s) && Exact(s) && Enabled(s, Act(k))
    requires s.jobs[k].actCnt == 0 ==> s.jobs[k].captures == 1
    ensures var s' := Apply(s, Act(k));
            && Exact(s') && s'.counters.running <= s.counters.running
            && (s.jobs[k].actCnt > 0 ==> s'.counters.running == s.counters.running)
  {
    SumUpdate(s.jobs, k, Apply(s, Act(k)).jobs[k], CaptureWeight);
    SumAtLeast(s.jobs, k, CaptureWeight);
  }

  /** With no more jobs running than the limit nobody is turned away, whatever the order. */
  lemma ActStaysExact(s: System, k: nat)
    requires Inv(s) && NoneTurnedAway(s) && Exact(s) && s.counters.running <= RAM_MP4_MAX && Enabled(s, Act(k))
    ensures var s' := Apply(s, Act(k));
            Inv(s') && NoneTurnedAway(s') && Exact(s') && s'.counters.running <= RAM_MP4_MAX
  {
    LimitLeavesRoom(s, k);
    StepStaysExact(s, k);
  }

  lemma {:induction false} FewJobsStayExact(s: System, es: seq<Event>)
    requires Inv(s) && NoneTurnedAway(s) && Exact(s) && s.counters.running <= RAM_MP4_MAX
    requires ValidRun(s, es) && ActsOnly(es)
    ensures ExactThroughout(s, es)
    decreases |es|
  {
    if es != [] {
      assert es[0] in es;
      ActStaysExact(s, es[0].job);
      assert forall e | e in es[1..] :: e in es;
      FewJobsStayExact(Apply(s, es[0]), es[1..]);
    }
  }

  lemma LimitLeavesRoom(s: System, k: nat)
    requires Inv(s) && NoneTurnedAway(s) && Exact(s) && s.counters.running <= RAM_MP4_MAX && Enabled(s, Act(k))
    ensures s.jobs[k].actCnt > 0 && NextAction(s, k) == RamMp4 ==> s.counters.mp4 < RAM_MP4_MAX
  {
    if s.jobs[k].actCnt > 0 && NextAction(s, k) == RamMp4 {
      assert ToRun(s, k)[0] == RamMp4;
      assert s.jobs[k].captures + Recordings(ToRun(s, k)) == 1;
      RoomForTheNext(s, k);
    }
  }

  /** With more, some order turns a job away, and that job then gives back a recording it never made. */
  lemma {:induction false} ManyJobsGoWrong(s: System) returns (es: seq<Event>)
    requires Inv(s) && NoneTurnedAway(s) && Exact(s) && s.counters.running > RAM_MP4_MAX
    ensures ValidRun(s, es) && ActsOnly(es) && !ExactThroughout(s, es)
    decreases Sum(s.jobs, RemainingWeight)
  {
    var k := SomebodyHasNotRecorded(s);
    assert s.jobs[k].captures + Recordings(ToRun(s, k)) == 1;
    var s' := Apply(s, Act(k));
    SumUpdate(s.jobs, k, s'.jobs[k], RemainingWeight);
    var rest;
    if NextAction(s, k) == RamMp4 && s.counters.mp4 == RAM_MP4_MAX {
      TurnedAway(s, k);
      rest := TurnedAwayGivesBack(s', k);
    } else {
      StepStaysExact(s, k);
      rest := ManyJobsGoWrong(s');
    }
    es := [Act(k)] + rest;
    assert es[1..] == rest;
  }

  lemma SomebodyHasNotRecorded(s: System) returns (k: nat)
    requires Inv(s) && NoneTurnedAway(s) && Exact(s) && s.counters.running > RAM_MP4_MAX
    ensures k < |s.jobs| && !s.jobs[k].done && s.jobs[k].captures == 0 && s.jobs[k].actCnt > 0
  {
    if forall i | 0 <= i < |s.jobs| :: UnfinishedWeight(s.jobs[i]) <= CaptureWeight(s.jobs[i]) {
      SumDominated(s.jobs, UnfinishedWeight, CaptureWeight);
      assert false;
    }
    k :| 0 <= k < |s.jobs| && UnfinishedWeight(s.jobs[k]) > CaptureWeight(s.jobs[k]);
    assert s.jobs[k].captures + Recordings(ToRun(s, k)) == 1;
  }

  /** At the limit a request changes nothing but the job's own place in its list. */
  lemma TurnedAway(s: System, k: nat)
    requires Inv(s) && Exact(s) && Enabled(s, Act(k)) && s.jobs[k].actCnt > 0 && s.jobs[k].captures == 0
    requires NextAction(s, k) == RamMp4 && s.counters.mp4 == RAM_MP4_MAX && Recordings(ToRun(s, k)) == 1
    ensures var s' := Apply(s, Act(k));
            && Inv(s') && Exact(s') && s'.counters.mp4 == RAM_MP4_MAX && |s'.jobs| == |s.jobs|
            && !s'.jobs[k].done && s'.jobs[k].captures == 0 && Recordings(ToRun(s', k)) == 0
  {
    StepKeepsInv(s, Act(k));
    StepTakesFirst(s, k);
    SumUpdate(s.jobs, k, Apply(s, Act(k)).jobs[k], CaptureWeight);
  }

  lemma {:induction false} TurnedAwayGivesBack(s: System, k: nat) returns (es: seq<Event>)
    requires Inv(s) && Exact(s) && s.counters.mp4 > 0 && Enabled(s, Act(k))
    requires s.jobs[k].captures == 0 && Recordings(ToRun(s, k)) == 0
    ensures ValidRun(s, es) && ActsOnly(es) && !ExactThroughout(s, es)
    decreases s.jobs[k].actCnt
  {
    var s' := Apply(s, Act(k));
    StepKeepsInv(s, Act(k));
    SumUpdate(s.jobs, k, s'.jobs[k], CaptureWeight);
    var rest := [];
    if s.jobs[k].actCnt > 0 {
      StepTakesFirst(s, k);
      rest := TurnedAwayGivesBack(s', k);
    }
    es := [Act(k)] + rest;
    assert es[1..] == rest;
  }

  /** In a state in which the counter is exact and no job in flight was turned away, it stays exact in every
      continuation without a launch if and only if no more jobs are running than the limit on recordings. */
  lemma StaysExactIffWithinLimit(s: System)
    requires Inv(s) && NoneTurnedAway(s) && Exact(s)
    ensures (forall es | ValidRun(s, es) && ActsOnly(es) :: ExactThroughout(s, es))
            <==> s.counters.running <= RAM_MP4_MAX
  {
    if s.counters.running <= RAM_MP4_MAX {
      forall es | ValidRun(s, es) && ActsOnly(es)
        ensures ExactThroughout(s, es)
      {
        FewJobsStayExact(s, es);
      }
    } else {
      var es := ManyJobsGoWrong(s);
    }
  }

  // ---- the half of exactness that never fails ----

  ghost predicate RulesRecordAtMostOnce(s: System)
    requires Shaped(s)
  {
    forall t | 0 <= t < TRIGGER_MAX :: Recordings(s.rules[t].Actions()) <= 1
  }

  /** No job gives back less than it took, so the counter is never too high. */
  ghost predicate NeverTooHigh(s: System)
    requires Shaped(s)
  {
    && RulesRecordAtMostOnce(s)
    && (forall k | 0 <= k < |s.jobs| && !s.jobs[k].done :: s.jobs[k].captures + Recordings(ToRun(s, k)) <= 1)
    && s.counters.mp4 <= LiveCaptures(s)
  }

  lemma PushNeverTooHigh(s: System, trigger: nat, now: int)
    requires Inv(s) && NeverTooHigh(s) && Enabled(s, Push(trigger, now)) && Shaped(ApplyPush(s, trigger, now))
    ensures NeverTooHigh(ApplyPush(s, trigger, now))
  {
    RulesStayAtMostOnce(s, trigger, now);
    NewJobAsksAtMostOnce(s, trigger, now);
    if Launches(s.rules[trigger], s.masks[trigger], now) {
      SumAppend(s.jobs, ApplyPush(s, trigger, now).jobs[|s.jobs|], CaptureWeight);
    }
  }

  lemma RulesStayAtMostOnce(s: System, trigger: nat, now: int)
    requires Shaped(s) && RulesRecordAtMostOnce(s)
    requires Enabled(s, Push(trigger, now)) && Shaped(ApplyPush(s, trigger, now))
    ensures RulesRecordAtMostOnce(ApplyPush(s, trigger, now))
  {
    var s' := ApplyPush(s, trigger, now);
    forall t | 0 <= t < TRIGGER_MAX
      ensures Recordings(s'.rules[t].Actions()) <= 1
    {
      assert s'.rules[t].Actions() == s.rules[t].Actions();
    }
  }

  lemma NewJobAsksAtMostOnce(s: System, trigger: nat, now: int)
    requires Shaped(s) && NeverTooHigh(s)
    requires Enabled(s, Push(trigger, now)) && Shaped(ApplyPush(s, trigger, now))
    ensures var s' := ApplyPush(s, trigger, now);
            forall k | 0 <= k < |s'.jobs| && !s'.jobs[k].done :: s'.jobs[k].captures + Recordings(ToRun(s', k)) <= 1
  {
    var s' := ApplyPush(s, trigger, now);
    forall k | 0 <= k < |s'.jobs| && !s'.jobs[k].done
      ensures s'.jobs[k].captures + Recordings(ToRun(s', k)) <= 1
    {
      if k < |s.jobs| {
        assert ToRun(s', k) == ToRun(s, k);
      } else {
        assert ToRun(s', k) == s.rules[trigger].Actions();
      }
    }
  }

  lemma ActNeverTooHigh(s: System, k: nat)
    requires Inv(s) && NeverTooHigh(s) && Enabled(s, Act(k)) && Shaped(Apply(s, Act(k)))
    ensures NeverTooHigh(Apply(s, Act(k)))
  {
    assert s.jobs[k].captures + Recordings(ToRun(s, k)) <= 1;
    ActKeepsBelow(s, k);
    StepTakesFirst(s, k);
    var s' := Apply(s, Act(k));
    forall i | 0 <= i < |s'.jobs| && !s'.jobs[i].done
      ensures s'.jobs[i].captures + Recordings(ToRun(s', i)) <= 1
    {
      assert !s.jobs[i].done ==> s.jobs[i].captures + Recordings(ToRun(s, i)) <= 1;
    }
  }

  lemma ActKeepsBelow(s: System, k: nat)
    requires Shaped(s) && 0 <= s.counters.mp4 <= LiveCaptures(s) && Enabled(s, Act(k)) && s.jobs[k].captures <= 1
    ensures Apply(s, Act(k)).counters.mp4 <= LiveCaptures(Apply(s, Act(k)))
  {
    SumUpdate(s.jobs, k, Apply(s, Act(k)).jobs[k], CaptureWeight);
    SumAtLeast(s.jobs, k, CaptureWeight);
  }

  lemma {:induction false} RunNeverTooHigh(s: System, es: seq<Event>)
    requires Inv(s) && NeverTooHigh(s) && ValidRun(s, es)
    ensures Inv(Exec(s, es)) && NeverTooHigh(Exec(s, es))
    decreases |es|
  {
    if es != [] {
      StepKeepsInv(s, es[0]);
      match es[0] {
        case Push(trigger, now) => PushNeverTooHigh(s, trigger, now);
        case Act(k) => ActNeverTooHigh(s, k);
      }
      RunNeverTooHigh(Apply(s, es[0]), es[1..]);
    }
  }

  lemma LiveWithinRunning(s: System)
    requires Inv(s) && NeverTooHigh(s)
    ensures LiveCaptures(s) <= s.counters.running
  {
    forall i | 0 <= i < |s.jobs|
      ensures CaptureWeight(s.jobs[i]) <= UnfinishedWeight(s.jobs[i])
    {
      assert !s.jobs[i].done ==> s.jobs[i].captures + Recordings(ToRun(s, i)) <= 1;
    }
    SumDominated(s.jobs, CaptureWeight, UnfinishedWeight);
  }

  /** Where no rule asks for two recordings, and however many jobs overlap: the counter is never above the
      recordings that are live, and it is zero whenever no job is running. */
  lemma CounterIsNeverTooHigh(s0: System, es: seq<Event>)
    requires Init(s0) && RulesRecordAtMostOnce(s0) && ValidRun(s0, es)
    ensures var s := Exec(s0, es);
            s.counters.mp4 <= LiveCaptures(s) && (s.counters.running == 0 ==> s.counters.mp4 == 0)
  {
    InitHasInv(s0);
    RunNeverTooHigh(s0, es);
    LiveWithinRunning(Exec(s0, es));
  }

  // ---- launches within the limit ----

  ghost predicate NeverMoreJobsThan(s: System, es: seq<Event>, limit: int)
    requires ValidRun(s, es)
    decreases |es|
  {
    s.counters.running <= limit && (es == [] || NeverMoreJobsThan(Apply(s, es[0]), es[1..], limit))
  }

  /** Every rule that can launch asks for one recording, as the motion rule does. */
  ghost predicate RulesRecordOnce(s: System)
    requires Shaped(s)
  {
    forall t | 0 <= t < TRIGGER_MAX :: s.rules[t].actCount == 0 || Recordings(s.rules[t].Actions()) == 1
  }

  lemma PushStaysExact(s: System, trigger: nat, now: int)
    requires Inv(s) && RulesRecordOnce(s) && NoneTurnedAway(s) && Exact(s) && Enabled(s, Push(trigger, now))
    ensures var s' := ApplyPush(s, trigger, now); Inv(s') && NoneTurnedAway(s') && Exact(s')
  {
    PushKeepsInv(s, trigger, now);
    PushTurnsNobodyAway(s, trigger, now);
    if Launches(s.rules[trigger], s.masks[trigger], now) {
      SumAppend(s.jobs, ApplyPush(s, trigger, now).jobs[|s.jobs|], CaptureWeight);
    }
  }

  lemma PushTurnsNobodyAway(s: System, trigger: nat, now: int)
    requires Shaped(s) && RulesRecordOnce(s) && NoneTurnedAway(s) && Enabled(s, Push(trigger, now))
    requires Shaped(ApplyPush(s, trigger, now))
    ensures NoneTurnedAway(ApplyPush(s, trigger, now))
  {
    var s' := ApplyPush(s, trigger, now);
    forall k | 0 <= k < |s'.jobs| && !s'.jobs[k].done
      ensures s'.jobs[k].captures + Recordings(ToRun(s', k)) == 1
    {
      if k < |s.jobs| {
        assert ToRun(s', k) == ToRun(s, k);
      } else {
        assert ToRun(s', k) == s.rules[trigger].Actions();
      }
    }
  }

  /** With launches: the counter is exact, and the recordings are within their limit, throughout every run in
      which never more jobs than RAM_MP4_MAX run at once. */
  lemma {:induction false} ExactWhileWithinLimit(s: System, es: seq<Event>)
    requires Inv(s) && RulesRecordOnce(s) && NoneTurnedAway(s) && Exact(s)
    requires ValidRun(s, es) && NeverMoreJobsThan(s, es, RAM_MP4_MAX)
    ensures ExactThroughout(s, es) && LiveCaptures(Exec(s, es)) <= RAM_MP4_MAX
    decreases |es|
  {
    if es != [] {
      match es[0] {
        case Push(trigger, now) => PushStaysExact(s, trigger, now);
        case Act(k) => ActStaysExact(s, k);
      }
      RulesKeepRecordingOnce(s, es[0]);
      ExactWhileWithinLimit(Apply(s, es[0]), es[1..]);
    }
  }

  lemma RulesKeepRecordingOnce(s: System, e: Event)
    requires Shaped(s) && RulesRecordOnce(s) && Enabled(s, e) && Shaped(Apply(s, e))
    ensures RulesRecordOnce(Apply(s, e))
  {
    forall t | 0 <= t < TRIGGER_MAX
      ensures Apply(s, e).rules[t].actCount == 0 || Recordings(Apply(s, e).rules[t].Actions()) == 1
    {
      assert Apply(s, e).rules[t].Actions() == s.rules[t].Actions();
    }
  }
}

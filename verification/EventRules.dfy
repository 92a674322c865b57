/** Trigger rules, the shared counters, and what one action or one cleanup does to them. */
module EventRules {
  import opened SlotMask
  import opened SlotCalendar

  const ACTION_MAX := 10
  const RAM_MP4_MAX := 3
  const RAM_JPG_MAX := 3
  const TRIGGER_MANUAL := 0
  const TRIGGER_MOTION := 1
  const TRIGGER_MAX := 7

  /** The action functions a rule can point to. */
  datatype Action = RamJpg | RamMp4 | Ftp

  /** `lastRun` is a C int. */
  datatype Rule = Rule(actFunc: seq<Action>, cooldown: int, lastRun: int, actCount: nat) {
    ghost predicate Valid() {
      actCount <= |actFunc| <= ACTION_MAX && 0 <= cooldown < 0x8000_0000
    }

    /** The actions that a job of this rule is to run. */
    function Actions(): seq<Action>
      requires actCount <= |actFunc|
    {
      actFunc[..actCount]
    }

    /** Those left of them when the countdown stands at n. */
    function Left(n: nat): seq<Action>
      requires n <= actCount <= |actFunc|
    {
      actFunc[actCount - n..actCount]
    }
  }

  /** A job starts with all actions of its rule, and the time of the last run is not one of them. */
  lemma AllAreLeft(rule: Rule, lastRun: int)
    requires rule.Valid()
    ensures rule.(lastRun := lastRun).Valid()
    ensures rule.(lastRun := lastRun).Left(rule.actCount) == rule.Actions()
  {
  }

  datatype Counters = Counters(jpg: int, mp4: int, running: int)

  /** A capture in RAM counts a picture twice, once in the action and once in the snapshot. */
  function AfterAction(c: Counters, a: Action): Counters {
    match a
    case RamJpg => if c.jpg < RAM_JPG_MAX then c.(jpg := c.jpg + 2) else c
    case RamMp4 => if c.mp4 < RAM_MP4_MAX then c.(mp4 := c.mp4 + 1) else c
    case Ftp => c
  }

  function AfterRemove(c: Counters): Counters {
    c.(jpg := if c.jpg != 0 then c.jpg - 1 else c.jpg, mp4 := if c.mp4 != 0 then c.mp4 - 1 else c.mp4)
  }

  /** The end of a job. */
  function AfterCleanup(c: Counters): Counters {
    AfterRemove(c).(running := c.running - 1)
  }

  /** The counters after n cleanups with nothing between them. */
  function AfterCleanups(c: Counters, n: nat): Counters
    decreases n
  {
    if n == 0 then c else AfterCleanup(AfterCleanups(c, n - 1))
  }

  /** Each takes one from a counter until that is zero, and one from the jobs that are running. */
  lemma {:induction false} CleanupsStopAtZero(c: Counters, n: nat)
    requires 0 <= c.jpg && 0 <= c.mp4
    ensures AfterCleanups(c, n) ==
            Counters(if n <= c.jpg then c.jpg - n else 0, if n <= c.mp4 then c.mp4 - n else 0, c.running - n)
    decreases n
  {
    if n > 0 {
      CleanupsStopAtZero(c, n - 1);
    }
  }

  /** A whole job that nothing else runs beside. */
  function AfterJob(c: Counters, actions: seq<Action>): Counters
    decreases |actions|
  {
    if actions == [] then AfterCleanup(c) else AfterJob(AfterAction(c, actions[0]), actions[1..])
  }

  /** Narrowing a time to the C int that keeps it. */
  function Int32(t: int): (r: int)
    ensures -0x8000_0000 <= r < 0x8000_0000
    ensures (r - t) % 0x1_0000_0000 == 0
  {
    (t + 0x8000_0000) % 0x1_0000_0000 - 0x8000_0000
  }

  /** The weekly mask allows the trigger at this time. */
  predicate MaskAllows(masks: seq<int64>, now: int)
    requires |masks| == 7
  {
    Slots(masks[Weekday(now)] as int)[SlotOf(now)]
  }

  predicate CooledDown(rule: Rule, now: int) {
    now - rule.lastRun > rule.cooldown
  }

  /** The guards of a launch: the rule has actions, the weekly mask allows the time and the cooldown is over. */
  predicate Launches(rule: Rule, masks: seq<int64>, now: int)
    requires |masks| == 7
  {
    rule.actCount != 0 && MaskAllows(masks, now) && CooledDown(rule, now)
  }

  /** After a launch at time a the rule is held back for exactly its cooldown if and only if the time fits
      an int; from 2038 on the narrowed time lies in the past and nothing is held back. */
  lemma CooldownWorksIff(rule: Rule, a: int)
    requires rule.Valid() && 0 <= a
    ensures (forall now | a <= now :: CooledDown(rule.(lastRun := Int32(a)), now) <==> now - a > rule.cooldown)
            <==> a < 0x8000_0000
  {
    if a >= 0x8000_0000 {
      assert CooledDown(rule.(lastRun := Int32(a)), a);
    } else {
      assert Int32(a) == a;
    }
  }

  /** The first second that does not fit: a motion rule is ready again in the second of its launch. */
  lemma CooldownFailsIn2038()
    ensures var rule := Rule([RamJpg, RamMp4, Ftp], 3, 0, 3);
            rule.Valid() && CooledDown(rule.(lastRun := Int32(0x8000_0000)), 0x8000_0000)
  {
  }

  /** The actions of the motion rule, in order. */
  predicate IsMotion(actions: seq<Action>) {
    |actions| == 3 && actions[0] == RamJpg && actions[1] == RamMp4 && actions[2] == Ftp
  }

  /** A motion job on its own leaves the recordings as it found them, but never the pictures: below the
      limit it leaves one too many behind, at the limit it takes one away that is not its own. */
  lemma MotionJobAlone(c: Counters, actions: seq<Action>)
    requires IsMotion(actions) && 0 <= c.mp4 <= RAM_MP4_MAX && 0 <= c.jpg <= RAM_JPG_MAX + 1
    ensures AfterJob(c, actions) ==
            Counters(
              if c.jpg < RAM_JPG_MAX then c.jpg + 1 else c.jpg - 1,
              if c.mp4 < RAM_MP4_MAX then c.mp4 else c.mp4 - 1,
              c.running - 1)
  {
    var c1 := AfterAction(c, RamJpg);
    var c2 := AfterAction(c1, RamMp4);
    assert AfterJob(c1, actions[1..]) == AfterJob(c2, actions[1..][1..]);
    assert AfterJob(c2, actions[1..][1..]) == AfterJob(c2, actions[1..][1..][1..]);
  }

  /** The counters after n such jobs, one after the other, from an idle start. */
  function AfterJobs(actions: seq<Action>, n: nat): Counters
    decreases n
  {
    if n == 0 then Counters(0, 0, 0)
    else
      var d := AfterJobs(actions, n - 1);
      AfterJob(d.(running := d.running + 1), actions)
  }

  /** So from the fourth job on every second motion job takes no picture at all. */
  lemma {:induction false} EverySecondPictureIsLost(actions: seq<Action>, n: nat)
    requires IsMotion(actions)
    ensures AfterJobs(actions, n) == Counters(if n <= 3 then n else if n % 2 == 1 then 3 else 2, 0, 0)
    ensures AfterJobs(actions, n).jpg < RAM_JPG_MAX <==> n < 3 || n % 2 == 0
    decreases n
  {
    if n > 0 {
      EverySecondPictureIsLost(actions, n - 1);
      var d := AfterJobs(actions, n - 1);
      MotionJobAlone(d.(running := d.running + 1), actions);
    }
  }
}

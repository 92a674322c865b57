/** The event core: a job is a countdown through the actions of its rule, each of which calls
    `next_job` again. */
module EventJobs {
  import opened SlotMask
  import opened SlotCalendar
  import opened SlotSearch
  import opened EventRules

  /** What a job does that can be seen from outside. */
  datatype Effect = Ran(a: Action) | CleanedUp

  ghost function Effects(actions: seq<Action>): (es: seq<Effect>)
    ensures |es| == |actions| + 1
  {
    seq(|actions|, i requires 0 <= i < |actions| => Ran(actions[i])) + [CleanedUp]
  }

  /** The recursion on values: the first action that is left, and then the rest. */
  lemma FirstThenRest(rule: Rule, n: nat, c: Counters)
    requires rule.Valid() && 0 < n <= rule.actCount
    ensures var a := rule.actFunc[rule.actCount - n];
            && Effects(rule.Left(n)) == [Ran(a)] + Effects(rule.Left(n - 1))
            && AfterJob(c, rule.Left(n)) == AfterJob(AfterAction(c, a), rule.Left(n - 1))
  {
    assert rule.Left(n)[1..] == rule.Left(n - 1);
  }

  /** With nothing left, the cleanup is all there is. */
  lemma NoneLeft(rule: Rule, c: Counters)
    requires rule.Valid()
    ensures Effects(rule.Left(0)) == [CleanedUp] && AfterJob(c, rule.Left(0)) == AfterCleanup(c)
  {
  }

  class Job {
    var triggerType: nat
    var actCnt: nat
    var recordStarted: int

    constructor (triggerType: nat, actCnt: nat)
      ensures this.triggerType == triggerType && this.actCnt == actCnt && recordStarted == 0
    {
      this.triggerType, this.actCnt, recordStarted := triggerType, actCnt, 0;
    }
  }

  const MOTION_ACTIONS: seq<Action> := [RamJpg, RamMp4, Ftp]

  /** What the rules are after `event_init`: the count of the manual rule stays zero. */
  function InitialRules(): (rs: seq<Rule>)
    ensures |rs| == TRIGGER_MAX && forall t | 0 <= t < TRIGGER_MAX :: rs[t].Valid()
  {
    seq(TRIGGER_MAX, t =>
      if t == TRIGGER_MOTION then Rule(MOTION_ACTIONS, 3, 0, 3)
      else if t == TRIGGER_MANUAL then Rule([RamJpg], 0, 0, 0)
      else Rule([], 0, 0, 0))
  }

  /** The rules after a boot, and after a launch that came with it. */
  function RulesAfterBoot(launched: bool, now: int): seq<Rule> {
    var rules := InitialRules();
    if launched then rules[TRIGGER_MOTION := rules[TRIGGER_MOTION].(lastRun := Int32(now))] else rules
  }

  class EventSystem {
    var alive: int
    var jpg: int
    var mp4: int
    var running: int
    const rules: array<Rule>
    const masks: array<seq<int64>>
    ghost var trace: seq<Effect>

    ghost predicate Valid()
      reads this, rules, masks
    {
      && rules.Length == masks.Length == TRIGGER_MAX
      && (forall t | 0 <= t < TRIGGER_MAX :: rules[t].Valid())
      && (forall t | 0 <= t < TRIGGER_MAX :: |masks[t]| == 7)
    }

    ghost function Status(): Counters
      reads this
    {
      Counters(jpg, mp4, running)
    }

    /** The actions that job j has still to run. */
    ghost function ToRun(j: Job): seq<Action>
      requires Valid() && j.triggerType < TRIGGER_MAX && j.actCnt <= rules[j.triggerType].actCount
      reads this, rules, masks, j
    {
      rules[j.triggerType].Left(j.actCnt)
    }

    ghost predicate Runnable(j: Job)
      reads this, rules, masks, j
    {
      Valid() && j.triggerType < TRIGGER_MAX && j.actCnt <= rules[j.triggerType].actCount
    }

    constructor ()
      ensures Valid() && fresh(rules) && fresh(masks) && alive == 0 && Status() == Counters(0, 0, 0) && trace == []
    {
      alive, jpg, mp4, running, trace := 0, 0, 0, 0, [];
      rules := new Rule[TRIGGER_MAX](_ => Rule([], 0, 0, 0));
      masks := new seq<int64>[TRIGGER_MAX](_ => [0, 0, 0, 0, 0, 0, 0]);
    }

    /** `event_init`. */
    method EventInit()
      requires Valid()
      modifies this`alive, this`jpg, this`mp4, this`running, rules, masks
      ensures Valid() && alive == 1 && Status() == Counters(0, 0, 0) && rules[..] == InitialRules()
      ensures rules[TRIGGER_MOTION] == Rule([RamJpg, RamMp4, Ftp], 3, 0, 3)
      ensures rules[TRIGGER_MANUAL] == Rule([RamJpg], 0, 0, 0)
      ensures forall t | TRIGGER_MOTION < t < TRIGGER_MAX :: rules[t] == Rule([], 0, 0, 0)
      ensures masks[..] == old(masks[..])[TRIGGER_MOTION := old(masks[TRIGGER_MOTION])[2 := 0xffff2000ffff]]
    {
      for t := 0 to TRIGGER_MAX
        invariant forall k | 0 <= k < t :: rules[k] == Rule([], 0, 0, 0)
        invariant masks[..] == old(masks[..])
      {
        rules[t] := Rule([], 0, 0, 0);
      }
      jpg, mp4, running := 0, 0, 0;
      masks[TRIGGER_MOTION] := masks[TRIGGER_MOTION][2 := 0xffff2000ffff];
      rules[TRIGGER_MOTION] := Rule(MOTION_ACTIONS, 3, 0, 3);
      rules[TRIGGER_MANUAL] := rules[TRIGGER_MANUAL].(actFunc := [RamJpg]);
      alive := 1;
      assert forall t | 0 <= t < TRIGGER_MAX :: rules[..][t] == InitialRules()[t];
    }

    /** `checkExit`: the first call boots the system, a restart makes jobs give up. */
    method CheckExit() returns (exit: bool)
      requires Valid()
      modifies this`alive, this`jpg, this`mp4, this`running, rules, masks
      ensures Valid() && (exit <==> old(alive) == -1)
      ensures old(alive) != 0 ==>
                alive == old(alive) && Status() == old(Status())
                && rules[..] == old(rules[..]) && masks[..] == old(masks[..])
      ensures old(alive) == 0 ==> alive == 1 && Status() == Counters(0, 0, 0) && rules[..] == InitialRules()
      ensures old(alive) == 0 ==>
                masks[..] == old(masks[..])[TRIGGER_MOTION := old(masks[TRIGGER_MOTION])[2 := 0xffff2000ffff]]
    {
      if alive == 1 {
        return false;
      } else if alive == 0 {
        EventInit();
        return false;
      } else if alive == -1 {
        return true;
      }
      return false;
    }

    /** `remove_tmp_file`. */
    method RemoveTmpFile()
      modifies this`jpg, this`mp4
      ensures Status() == AfterRemove(old(Status()))
    {
      if jpg != 0 {
        jpg := jpg - 1;
      }
      if mp4 != 0 {
        mp4 := mp4 - 1;
      }
    }

    /** `next_job`, on a system that was booted: runs the remaining actions of the job's rule in order,
        each once, then cleans up once; in a restart it gives up at once. */
    method NextJob(j: Job)
      requires Runnable(j) && alive != 0
      modifies this`jpg, this`mp4, this`running, this`trace, j
      ensures alive == -1 ==> Status() == old(Status()) && trace == old(trace) && j.actCnt == old(j.actCnt)
      ensures alive != -1 ==>
                && trace == old(trace) + old(Effects(ToRun(j)))
                && Status() == AfterJob(old(Status()), old(ToRun(j)))
                && j.actCnt == 0
      ensures j.triggerType == old(j.triggerType) && j.recordStarted == old(j.recordStarted)
      decreases j.actCnt, 1
    {
      if alive == -1 {
        return;
      }
      if j.actCnt != 0 {
        RunNext(j);
      } else {
        NoneLeft(rules[j.triggerType], Status());
        FinishJob();
      }
    }

    /** The middle of `next_job`, when an action is left: counts down and runs it. */
    method RunNext(j: Job)
      requires Runnable(j) && alive != 0 && alive != -1 && j.actCnt != 0
      modifies this`jpg, this`mp4, this`running, this`trace, j
      ensures trace == old(trace) + old(Effects(ToRun(j)))
      ensures Status() == AfterJob(old(Status()), old(ToRun(j)))
      ensures j.actCnt == 0 && j.triggerType == old(j.triggerType) && j.recordStarted == old(j.recordStarted)
      decreases j.actCnt, 0
    {
      ghost var rule, n := rules[j.triggerType], j.actCnt;
      FirstThenRest(rule, n, Status());
      var cur := rules[j.triggerType].actCount - j.actCnt;
      j.actCnt := j.actCnt - 1;
      assert ToRun(j) == rule.Left(n - 1);
      RunJob(j, rules[j.triggerType].actFunc[cur]);
    }

    /** The end of `next_job`, when no action is left. */
    method FinishJob()
      modifies this`jpg, this`mp4, this`running, this`trace
      ensures Status() == AfterCleanup(old(Status())) && trace == old(trace) + [CleanedUp]
    {
      RemoveTmpFile();
      running := running - 1;
      trace := trace + [CleanedUp];
    }

    /** The call through the function table. */
    method RunJob(j: Job, a: Action)
      requires Runnable(j) && alive != 0 && alive != -1
      modifies this`jpg, this`mp4, this`running, this`trace, j
      ensures trace == old(trace) + [Ran(a)] + old(Effects(ToRun(j)))
      ensures Status() == AfterJob(AfterAction(old(Status()), a), old(ToRun(j)))
      ensures j.actCnt == 0 && j.triggerType == old(j.triggerType) && j.recordStarted == old(j.recordStarted)
      decreases j.actCnt, 3
    {
      match a
      case RamJpg => RamJpgAction(j);
      case RamMp4 => RamMp4Action(j);
      case Ftp => FtpAction(j);
    }

    /** `ram_jpg`. */
    method RamJpgAction(j: Job)
      requires Runnable(j) && alive != 0 && alive != -1
      modifies this`jpg, this`mp4, this`running, this`trace, j
      ensures trace == old(trace) + [Ran(RamJpg)] + old(Effects(ToRun(j)))
      ensures Status() == AfterJob(AfterAction(old(Status()), RamJpg), old(ToRun(j)))
      ensures j.actCnt == 0 && j.triggerType == old(j.triggerType) && j.recordStarted == old(j.recordStarted)
      decreases j.actCnt, 2
    {
      trace := trace + [Ran(RamJpg)];
      if jpg < RAM_JPG_MAX {
        jpg := jpg + 1;
        SnapShot();
      }
      NextJob(j);
    }

    /** `snap_shot`. */
    method SnapShot()
      modifies this`jpg
      ensures jpg == old(jpg) + 1
    {
      jpg := jpg + 1;
    }

    /** `ram_mp4`. */
    method RamMp4Action(j: Job)
      requires Runnable(j) && alive != 0 && alive != -1
      modifies this`jpg, this`mp4, this`running, this`trace, j
      ensures trace == old(trace) + [Ran(RamMp4)] + old(Effects(ToRun(j)))
      ensures Status() == AfterJob(AfterAction(old(Status()), RamMp4), old(ToRun(j)))
      ensures j.actCnt == 0 && j.triggerType == old(j.triggerType) && j.recordStarted == old(j.recordStarted)
      decreases j.actCnt, 2
    {
      trace := trace + [Ran(RamMp4)];
      if mp4 < RAM_MP4_MAX {
        mp4 := mp4 + 1;
        EventRecordStart(j);
      }
      NextJob(j);
    }

    /** `event_record_start`: the mark is set for the time of the recording only. */
    method EventRecordStart(j: Job)
      modifies j`recordStarted
      ensures j.recordStarted == old(j.recordStarted)
    {
      j.recordStarted := j.recordStarted + 1;
      j.recordStarted := j.recordStarted - 1;
    }

    /** `ftp`. */
    method FtpAction(j: Job)
      requires Runnable(j) && alive != 0 && alive != -1
      modifies this`jpg, this`mp4, this`running, this`trace, j
      ensures trace == old(trace) + [Ran(Ftp)] + old(Effects(ToRun(j)))
      ensures Status() == AfterJob(AfterAction(old(Status()), Ftp), old(ToRun(j)))
      ensures j.actCnt == 0 && j.triggerType == old(j.triggerType) && j.recordStarted == old(j.recordStarted)
      decreases j.actCnt, 2
    {
      trace := trace + [Ran(Ftp)];
      NextJob(j);
    }

    /** The launch of a job: the end of `_push_job`. */
    method Launch(trigger: nat, now: int)
      requires Valid() && trigger < TRIGGER_MAX && alive != 0 && alive != -1
      modifies this`jpg, this`mp4, this`running, this`trace, rules
      ensures Valid() && trace == old(trace) + Effects(old(rules[trigger].Actions()))
      ensures Status() == AfterJob(old(Status().(running := running + 1)), old(rules[trigger].Actions()))
      ensures rules[..] == old(rules[..])[trigger := old(rules[trigger]).(lastRun := Int32(now))]
    {
      AllAreLeft(rules[trigger], Int32(now));
      rules[trigger] := rules[trigger].(lastRun := Int32(now));
      running := running + 1;
      RunWholeJob(trigger);
    }

    /** A new job of a rule, from its first action to its cleanup. */
    method RunWholeJob(trigger: nat)
      requires Valid() && trigger < TRIGGER_MAX && alive != 0 && alive != -1
      modifies this`jpg, this`mp4, this`running, this`trace
      ensures trace == old(trace) + Effects(rules[trigger].Left(rules[trigger].actCount))
      ensures Status() == AfterJob(old(Status()), rules[trigger].Left(rules[trigger].actCount))
    {
      var j := new Job(trigger, rules[trigger].actCount);
      NextJob(j);
    }

    /** `_push_job` from the count test on. */
    method PushReady(trigger: nat, now: int) returns (ret: int)
      requires Valid() && trigger < TRIGGER_MAX && alive != 0 && alive != -1
      modifies this`jpg, this`mp4, this`running, this`trace, rules
      ensures Valid() && ret in {0, 1}
      ensures ret == 0 <==>
              old(rules[trigger].actCount != 0) && old(Slots(masks[trigger][Weekday(now)] as int)[SlotOf(now)])
      ensures ret == 1 || now - old(rules[trigger].lastRun) <= old(rules[trigger].cooldown) ==>
                trace == old(trace) && Status() == old(Status()) && rules[..] == old(rules[..])
      ensures ret == 0 && now - old(rules[trigger].lastRun) > old(rules[trigger].cooldown) ==>
                && trace == old(trace) + Effects(old(rules[trigger].Actions()))
                && Status() == AfterJob(old(Status().(running := running + 1)), old(rules[trigger].Actions()))
                && rules[..] == old(rules[..])[trigger := old(rules[trigger]).(lastRun := Int32(now))]
    {
      if rules[trigger].actCount == 0 {
        return 1;
      }
      var mask := TimeMaskChk(masks[trigger][LocalTime(now).wday], now);
      if mask == 0 {
        return 1;
      }
      if now - rules[trigger].lastRun > rules[trigger].cooldown {
        Launch(trigger, now);
      }
      return 0;
    }

    /** `_push_job`, with no other job running beside it. In a restart with jobs still running nothing
        is launched; on a system that is not up it is booted first. */
    method PushJob(trigger: nat, now: int) returns (ret: int)
      requires Valid() && trigger < TRIGGER_MAX
      modifies this, rules, masks
      ensures Valid()
      ensures old(alive) != 0 && old(alive) != -1 ==>
                && ret in {0, 1} && alive == old(alive) && masks[..] == old(masks[..])
                && (ret == 0 <==>
                    old(rules[trigger].actCount != 0) && old(Slots(masks[trigger][Weekday(now)] as int)[SlotOf(now)]))
      ensures old(alive) != 0 && old(alive) != -1
              && (ret == 1 || now - old(rules[trigger].lastRun) <= old(rules[trigger].cooldown)) ==>
                trace == old(trace) && Status() == old(Status()) && rules[..] == old(rules[..])
      ensures old(alive) != 0 && old(alive) != -1
              && ret == 0 && now - old(rules[trigger].lastRun) > old(rules[trigger].cooldown) ==>
                && trace == old(trace) + Effects(old(rules[trigger].Actions()))
                && Status() == AfterJob(old(Status().(running := running + 1)), old(rules[trigger].Actions()))
                && rules[..] == old(rules[..])[trigger := old(rules[trigger]).(lastRun := Int32(now))]
      ensures old(alive) == -1 && old(running) != 0 ==>
                && ret == 1 && trace == old(trace) && Status() == AfterRemove(old(Status()))
                && alive == -1 && rules[..] == old(rules[..]) && masks[..] == old(masks[..])
      ensures old(alive) == 0 || (old(alive) == -1 && old(running) == 0) ==>
                var mask := old(masks[TRIGGER_MOTION])[2 := 0xffff2000ffff];
                var allowed := trigger == TRIGGER_MOTION && Slots(mask[Weekday(now)] as int)[SlotOf(now)];
                var launched := allowed && now > 3;
                && ret == (if allowed then 0 else 1)
                && alive == 1 && masks[..] == old(masks[..])[TRIGGER_MOTION := mask]
                && trace == old(trace) + (if launched then Effects(MOTION_ACTIONS) else [])
                && Status() == (if launched then AfterJob(Counters(0, 0, 1), MOTION_ACTIONS) else Counters(0, 0, 0))
                && rules[..] == RulesAfterBoot(launched, now)
    {
      var exit := CheckExit();
      if exit {
        RemoveTmpFile();
        if running == 0 {
          EventInit();
        } else {
          return 1;
        }
      }
      ghost var booted := old(alive) == 0 || exit;
      assert booted ==> rules[TRIGGER_MOTION] == InitialRules()[TRIGGER_MOTION];
      assert booted ==> masks[TRIGGER_MOTION] == old(masks[TRIGGER_MOTION])[2 := 0xffff2000ffff];
      assert InitialRules()[TRIGGER_MOTION].Actions() == MOTION_ACTIONS;
      ret := PushReady(trigger, now);
    }
  }
}

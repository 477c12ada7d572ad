// The stages of SCH_start (scheduler.c) as functions from one snapshot of the
// scheduler object to the next: the queue sweeps that release waiting, idle
// and skipped tasks, the completion of the running task, and the restoring
// of removed and doubled tasks. Every stage keeps the scheduler invariant.

module SchedSteps {
  import opened CTypes
  import opened Task
  import opened TestReport
  import opened Queues
  import opened Metrics
  import opened SchedState
  import opened SchedOps

  /** The head of q0 queue `h` has reached its deadline (the sweeps' loop test). */
  predicate Due(s: Snapshot, h: Queue, now: u32)
    requires Shaped(s)
  {
    s.lists[h.Index()] != [] && s.ts[s.lists[h.Index()][0]].absDline <= now
  }

  // ----------------------------------------------------------------------
  // process_waiting_tasks

  /** A waiting task released to the idle queue fits there. */
  lemma WaitingToIdle(m: seq<bool>, d: bool, runs: bool, alg: Algorithm)
    requires |m| == NUM_OF_QUEUES && Fits(m, Role(TaskState.Waiting, d), runs, alg)
    ensures Fits(m[Queue.Waiting.Index() := false][Queue.Idle.Index() := true], Role(TaskState.Idle, d), runs, alg)
  {
  }

  /** One pass of the waiting sweep: the head turns IDLE and joins the idle queue in deadline order. */
  function WaitingStep(s: Snapshot, now: u32): (r: Snapshot)
    requires Shaped(s) && Due(s, Queue.Waiting, now)
    ensures Shaped(r) && |r.lists[Queue.Waiting.Index()]| < |s.lists[Queue.Waiting.Index()]|
    ensures r.running == s.running && r.alg == s.alg && r.counters == s.counters
    ensures var t := s.lists[Queue.Waiting.Index()][0];
      t in r.lists[Queue.Idle.Index()] && r.ts[t].state == TaskState.Idle
  {
    var t := s.lists[Queue.Waiting.Index()][0];
    var s1 := FirstOut(s, Queue.Waiting);
    var s2 := Urgencies(Laxities(WithRecord(s1, t, s1.ts[t].(state := TaskState.Idle)), now));
    Inserted(s2, Queue.Idle, t, Q0Order(Edf))
  }

  /** The waiting step keeps the invariant: the released task is IDLE and on the idle queue. */
  lemma WaitingStepKeeps(s: Snapshot, now: u32)
    requires Consistent(s) && Due(s, Queue.Waiting, now)
    ensures Consistent(WaitingStep(s, now))
  {
    var t := s.lists[Queue.Waiting.Index()][0];
    var s1 := FirstOut(s, Queue.Waiting);
    var s2 := Urgencies(Laxities(WithRecord(s1, t, s1.ts[t].(state := TaskState.Idle)), now));
    HeadOut(s, Queue.Waiting);
    Renewed(s1, t, s1.ts[t].(state := TaskState.Idle), now);
    WaitingToIdle(Memberships(s.lists, t), s.ts[t].periodMultiplier >= 1, t == s.running, s.alg);
    InsertedFits(s2, Queue.Idle, t, Q0Order(Edf));
  }

  /** The waiting sweep: releases waiting tasks until the head's deadline lies in the future. */
  function ProcessWaiting(s: Snapshot, now: u32): (r: Snapshot)
    requires Consistent(s)
    ensures Consistent(r) && !Due(r, Queue.Waiting, now)
    ensures r.running == s.running && r.alg == s.alg && r.counters == s.counters
    decreases |s.lists[Queue.Waiting.Index()]|
  {
    if Due(s, Queue.Waiting, now) then
      WaitingStepKeeps(s, now);
      ProcessWaiting(WaitingStep(s, now), now)
    else s
  }

  // ----------------------------------------------------------------------
  // process_completed_tasks

  /** The running task has used up its time. */
  predicate Finished(s: Snapshot)
    requires Shaped(s)
  {
    s.running > 0 && s.ts[s.running].timeLeft == 0
  }

  /** TSK_task_completed's report updates for the finished job of record `r`. */
  function CompletionCounted(counters: seq<u32>, r: TaskRecord, now: u32): (c: seq<u32>)
    requires |counters| == TST_MAX_TST
    ensures |c| == TST_MAX_TST
  {
    if r.absDline >= now then Counted(Counted(counters, DeadlineMet, 1), Value, r.netValue)
    else Counted(counters, DeadlineMissed, 1)
  }

  lemma RunToIdle(m: seq<bool>, d: bool, alg: Algorithm)
    requires |m| == NUM_OF_QUEUES && Fits(m, Role(Run, d), true, alg)
    ensures Fits(m[Queue.Idle.Index() := true], Role(TaskState.Idle, d), false, alg)
  {
  }

  /** The running task is on no q0 queue. */
  lemma RunningUnqueued(lists: seq<seq<Slot>>, t: Slot, d: bool, alg: Algorithm)
    requires |lists| == NUM_OF_QUEUES && Fits(Memberships(lists, t), Role(Run, d), true, alg)
    ensures Unqueued(lists, Q0, t)
  {
    Q0Free(lists, t);
  }

  lemma RunToSleep(m: seq<bool>, d: bool, alg: Algorithm)
    requires |m| == NUM_OF_QUEUES && Fits(m, Role(Run, d), true, alg)
    ensures Fits(m, Role(Sleep, d), false, alg)
  {
  }

  /**
   * process_completed_tasks: a running task whose time is used up is booked
   * as completed; a periodic one goes IDLE onto the idle queue in deadline
   * order, any other one to SLEEP; nothing runs afterwards.
   */
  function ProcessCompleted(s: Snapshot, now: u32): (r: Snapshot)
    requires Shaped(s)
    ensures Shaped(r) && r.alg == s.alg
  {
    if Finished(s) then
      var t := s.running;
      var c := Completed(s.ts[t], now);
      var s1 := Booked(s, now);
      if c.period > 0 then Inserted(WithRecord(s1, t, c.(state := TaskState.Idle)), Queue.Idle, t, Q0Order(Edf))
      else WithRecord(s1, t, c.(state := Sleep))
    else s
  }

  /** Booking the finished job and clearing the running id keeps every other task consistent. */
  lemma CompletedBut(s: Snapshot, now: u32)
    requires Consistent(s) && Finished(s)
    ensures var t := s.running; var c := Completed(s.ts[t], now);
      var s1 := Booked(s, now);
      && ConsistentBut(s1, t) && s1.lists == s.lists
      && Fits(Memberships(s.lists, t), Role(Run, s.ts[t].periodMultiplier >= 1), true, s.alg)
      && c.periodMultiplier == s.ts[t].periodMultiplier
  {
    var t := s.running;
    var c := Completed(s.ts[t], now);
    var s0 := WithRecord(s, t, c).(counters := CompletionCounted(s.counters, s.ts[t], now));
    MemberFits(s, t);
    ConsistentForAllBut(s, t);
    ButRecord(s, t, c);
    ButCounters(WithRecord(s, t, c), t, s0.counters);
    ButRunning(s0, t, 0);
  }

  /** The booked snapshot of a finished job: record completed, report counted, nothing running. */
  function Booked(s: Snapshot, now: u32): (r: Snapshot)
    requires Shaped(s) && Finished(s)
    ensures Shaped(r) && r.lists == s.lists && r.running == 0 && r.alg == s.alg
  {
    var t := s.running;
    WithRecord(s, t, Completed(s.ts[t], now)).(counters := CompletionCounted(s.counters, s.ts[t], now), running := 0)
  }

  lemma CompletedIdleKeeps(s: Snapshot, now: u32)
    requires Consistent(s) && Finished(s) && Completed(s.ts[s.running], now).period > 0
    ensures var t := s.running;
      Consistent(Inserted(WithRecord(Booked(s, now), t, Completed(s.ts[t], now).(state := TaskState.Idle)), Queue.Idle, t, Q0Order(Edf)))
  {
    var t := s.running;
    var c := Completed(s.ts[t], now);
    CompletedBut(s, now);
    RunToIdle(Memberships(s.lists, t), s.ts[t].periodMultiplier >= 1, s.alg);
    RunningUnqueued(s.lists, t, s.ts[t].periodMultiplier >= 1, s.alg);
    ButRecord(Booked(s, now), t, c.(state := TaskState.Idle));
    InsertedFits(WithRecord(Booked(s, now), t, c.(state := TaskState.Idle)), Queue.Idle, t, Q0Order(Edf));
  }

  lemma CompletedSleepKeeps(s: Snapshot, now: u32)
    requires Consistent(s) && Finished(s)
    ensures var t := s.running; Consistent(WithRecord(Booked(s, now), t, Completed(s.ts[t], now).(state := Sleep)))
  {
    var t := s.running;
    CompletedBut(s, now);
    RunToSleep(Memberships(s.lists, t), s.ts[t].periodMultiplier >= 1, s.alg);
    RecordFits(Booked(s, now), t, Completed(s.ts[t], now).(state := Sleep));
  }

  lemma ProcessCompletedKeeps(s: Snapshot, now: u32)
    requires Consistent(s)
    ensures Consistent(ProcessCompleted(s, now))
  {
    if Finished(s) {
      if Completed(s.ts[s.running], now).period > 0 {
        CompletedIdleKeeps(s, now);
      } else {
        CompletedSleepKeeps(s, now);
      }
    }
  }

  // ----------------------------------------------------------------------
  // process_removed_tasks (ADAP-2)

  lemma RemovedToIdle(m: seq<bool>, d: bool, runs: bool, alg: Algorithm)
    requires |m| == NUM_OF_QUEUES && Fits(m, Role(TaskState.Removed, d), runs, alg)
    ensures Fits(m[Queue.Removed.Index() := false][Queue.Idle.Index() := true], Role(TaskState.Idle, d), runs, alg)
    ensures var f := m[Queue.Removed.Index() := false]; !f[0] && !f[1] && !f[2] && !f[4] && !f[5]
  {
  }

  /** One restoring pass: the removed task is extracted, made IDLE with its deadline set to now, and queued as idle. */
  function RemovedStep(s: Snapshot, now: u32, task: Slot): (r: Snapshot)
    requires Shaped(s) && task in s.lists[Queue.Removed.Index()] && s.ts[task].state == TaskState.Removed
    ensures Shaped(r) && |r.lists[Queue.Removed.Index()]| < |s.lists[Queue.Removed.Index()]|
    ensures r.running == s.running && r.alg == s.alg && r.counters == s.counters
    ensures task in r.lists[Queue.Idle.Index()] && r.ts[task] == s.ts[task].(state := TaskState.Idle, absDline := now)
  {
    var s1 := Out(s, ExtractHeader(s.ts[task].state), task);
    var s2 := WithRecord(s1, task, s1.ts[task].(state := TaskState.Idle, absDline := now));
    Inserted(s2, Queue.Idle, task, Q0Order(Edf))
  }

  lemma RemovedStepKeeps(s: Snapshot, now: u32, task: Slot)
    requires Consistent(s) && task in s.lists[Queue.Removed.Index()] && s.ts[task].state == TaskState.Removed
    ensures Consistent(RemovedStep(s, now, task))
  {
    var s1 := Out(s, Queue.Removed, task);
    var rec := s1.ts[task].(state := TaskState.Idle, absDline := now);
    MemberOut(s, Queue.Removed, task);
    ButRecord(s1, task, rec);
    RemovedToIdle(Memberships(s.lists, task), s.ts[task].periodMultiplier >= 1, task == s.running, s.alg);
    Q0Free(s1.lists, task);
    InsertedFits(WithRecord(s1, task, rec), Queue.Idle, task, Q0Order(Edf));
  }

  /**
   * The loop of process_removed_tasks: while the set utility `util` is
   * below 1000 and a removed task fits in the spare utility computed before
   * the loop, that task is restored.
   */
  function RemovedLoop(s: Snapshot, now: u32, util: u16, spare: u16): (r: Snapshot)
    requires Consistent(s)
    ensures Consistent(r) && r.running == s.running && r.alg == s.alg && r.counters == s.counters
    decreases |s.lists[Queue.Removed.Index()]|
  {
    var task := RemovedFit(s.ts, s.lists[Queue.Removed.Index()], spare);
    if util as nat < MAX_EDF_UTIL && task > 0 then
      MemberFits(s, task);
      RemovedStepKeeps(s, now, task);
      var r := RemovedStep(s, now, task);
      RemovedLoop(r, now, SetUtility(r.ts), spare)
    else s
  }

  /** process_removed_tasks: only ADAP-2 restores removed tasks, into a spare utility of `1000 - utility` (U16). */
  function ProcessRemoved(s: Snapshot, now: u32): (r: Snapshot)
    requires Consistent(s)
    ensures Consistent(r) && r.running == s.running && r.alg == s.alg && r.counters == s.counters
  {
    if s.alg == Adap02 then
      var util := SetUtility(s.ts);
      RemovedLoop(s, now, util, Wrap16(MAX_EDF_UTIL - util as int))
    else s
  }

  // ----------------------------------------------------------------------
  // process_doubled_periods (ADAP-4, ADAP-6, ADAP-7)

  /** A task taken off the doubled-periods queue fits whatever its multiplier becomes. */
  lemma UndoubledFits(m: seq<bool>, st: TaskState, d: bool, d': bool, runs: bool, alg: Algorithm)
    requires |m| == NUM_OF_QUEUES && Fits(m, Role(st, d), runs, alg)
    ensures Fits(m[Doubled.Index() := false], Role(st, d'), runs, alg)
  {
  }

  /** A task put back on the doubled-periods queue with a multiplier of at least one fits there. */
  lemma RedoubledFits(m: seq<bool>, st: TaskState, runs: bool, alg: Algorithm)
    requires |m| == NUM_OF_QUEUES && Fits(m, Role(st, true), runs, alg)
    ensures Fits(m[Doubled.Index() := true], Role(st, true), runs, alg)
  {
  }

  /** The utility still free below MAX_EDF_UTIL, as the U16 argument of doubled_queue_has_task. */
  function Spare(util: u16): (u: u16)
    requires util as nat < MAX_EDF_UTIL
    ensures u as nat + util as nat == MAX_EDF_UTIL
  {
    (MAX_EDF_UTIL - util as nat) as u16
  }

  /** One ADAP-4 pass: the task leaves the doubled-periods queue and its period is halved. */
  function HalveStep(s: Snapshot, task: Slot): (r: Snapshot)
    requires Shaped(s) && task in s.lists[Doubled.Index()]
    ensures Shaped(r) && |r.lists[Doubled.Index()]| < |s.lists[Doubled.Index()]|
    ensures r.running == s.running && r.alg == s.alg && r.counters == s.counters
    ensures r.ts[task] == PeriodHalved(s.ts[task])
    ensures forall g: Queue :: g != Doubled ==> r.lists[g.Index()] == s.lists[g.Index()]
  {
    WithRecord(Out(s, Doubled, task), task, PeriodHalved(s.ts[task]))
  }

  lemma HalveStepKeeps(s: Snapshot, task: Slot)
    requires Consistent(s) && task in s.lists[Doubled.Index()]
    ensures Consistent(HalveStep(s, task))
  {
    var h := PeriodHalved(s.ts[task]);
    MemberOut(s, Doubled, task);
    UndoubledFits(Memberships(s.lists, task), s.ts[task].state, s.ts[task].periodMultiplier >= 1, h.periodMultiplier >= 1, task == s.running, s.alg);
    RecordFits(Out(s, Doubled, task), task, h);
  }

  /**
   * The ADAP-4 loop: while the stored set utility is below MAX_EDF_UTIL and a
   * doubled task fits into the spare utility, that task's period is halved.
   */
  function Doubled4Loop(s: Snapshot): (r: Snapshot)
    requires Consistent(s)
    ensures Consistent(r) && r.running == s.running && r.alg == s.alg && r.counters == s.counters
    decreases |s.lists[Doubled.Index()]|
  {
    var util := SetUtility(s.ts);
    if util as nat < MAX_EDF_UTIL then
      var task := DoubledFit(s.ts, s.lists[Doubled.Index()], Spare(util));
      if task != 0 then
        HalveStepKeeps(s, task);
        Doubled4Loop(HalveStep(s, task))
      else s
    else s
  }

  /** What a slot adds to the weight of the doubled-periods list: its multiplier plus one when listed. */
  function SlotWeight(ts: seq<TaskRecord>, l: seq<Slot>, i: Slot): (w: nat)
    requires |ts| == NUM_OF_TASKS
    ensures i in l <==> w > 0
  {
    if i in l then ts[i].periodMultiplier as nat + 1 else 0
  }

  /** The weight of slots 0..n-1; it bounds the passes of the ADAP-6/7 restoring loop. */
  function DoubledWeight(ts: seq<TaskRecord>, l: seq<Slot>, n: nat): (w: nat)
    requires |ts| == NUM_OF_TASKS && n <= NUM_OF_TASKS
  {
    if n == 0 then 0 else DoubledWeight(ts, l, n - 1) + SlotWeight(ts, l, n - 1)
  }

  /** The weight changes by exactly the change of the one slot that differs. */
  lemma {:induction false} DoubledWeightOneSlot(ts: seq<TaskRecord>, l: seq<Slot>, ts': seq<TaskRecord>, l': seq<Slot>, t: Slot, n: nat)
    requires |ts| == NUM_OF_TASKS && |ts'| == NUM_OF_TASKS && n <= NUM_OF_TASKS
    requires forall i: Slot :: i != t ==> SlotWeight(ts', l', i) == SlotWeight(ts, l, i)
    ensures t < n ==> DoubledWeight(ts', l', n) + SlotWeight(ts, l, t) == DoubledWeight(ts, l, n) + SlotWeight(ts', l', t)
    ensures t >= n ==> DoubledWeight(ts', l', n) == DoubledWeight(ts, l, n)
  {
    if n > 0 {
      DoubledWeightOneSlot(ts, l, ts', l', t, n - 1);
    }
  }

  /**
   * One ADAP-6/7 pass: the task leaves the doubled-periods queue, its period
   * is halved, and while it is still doubled its enhanced priority is
   * recalculated and it goes back in enhanced-priority order.
   */
  function RehalveStep(s: Snapshot, task: Slot): (r: Snapshot)
    requires Shaped(s) && task in s.lists[Doubled.Index()]
    ensures Shaped(r) && r.running == s.running && r.alg == s.alg && r.counters == s.counters
  {
    var s1 := Out(s, Doubled, task);
    var h := PeriodHalved(s.ts[task]);
    if h.periodMultiplier > 0 then
      Inserted(WithRecord(s1, task, h.(ePriority := EPriority(h))), Doubled, task, Q1Order(Adap07))
    else WithRecord(s1, task, h)
  }

  lemma RehalveKeepsDoubled(s: Snapshot, task: Slot)
    requires Consistent(s) && task in s.lists[Doubled.Index()] && PeriodHalved(s.ts[task]).periodMultiplier > 0
    ensures var h := PeriodHalved(s.ts[task]);
      Consistent(Inserted(WithRecord(Out(s, Doubled, task), task, h.(ePriority := EPriority(h))), Doubled, task, Q1Order(Adap07)))
  {
    var s1 := Out(s, Doubled, task);
    var h := PeriodHalved(s.ts[task]);
    var s2 := WithRecord(s1, task, h.(ePriority := EPriority(h)));
    var m := Memberships(s.lists, task);
    MemberOut(s, Doubled, task);
    UndoubledFits(m, s.ts[task].state, s.ts[task].periodMultiplier >= 1, true, task == s.running, s.alg);
    ButRecord(s1, task, h.(ePriority := EPriority(h)));
    RedoubledFits(m[Doubled.Index() := false], s.ts[task].state, task == s.running, s.alg);
    Q1Free(s1.lists, task);
    InsertedFits(s2, Doubled, task, Q1Order(Adap07));
  }

  lemma RehalveStepKeeps(s: Snapshot, task: Slot)
    requires Consistent(s) && task in s.lists[Doubled.Index()]
    ensures Consistent(RehalveStep(s, task))
  {
    var h := PeriodHalved(s.ts[task]);
    if h.periodMultiplier > 0 {
      RehalveKeepsDoubled(s, task);
    } else {
      MemberOut(s, Doubled, task);
      UndoubledFits(Memberships(s.lists, task), s.ts[task].state, s.ts[task].periodMultiplier >= 1, false, task == s.running, s.alg);
      RecordFits(Out(s, Doubled, task), task, h);
    }
  }

  /** A pass lowers the halved task's weight and leaves every other slot's weight alone. */
  lemma RehalveStepWeighs(s: Snapshot, task: Slot)
    requires Consistent(s) && task in s.lists[Doubled.Index()]
    ensures var r := RehalveStep(s, task);
      && (forall i: Slot :: i != task ==> SlotWeight(r.ts, r.lists[Doubled.Index()], i) == SlotWeight(s.ts, s.lists[Doubled.Index()], i))
      && SlotWeight(r.ts, r.lists[Doubled.Index()], task) < SlotWeight(s.ts, s.lists[Doubled.Index()], task)
  {
    var r := RehalveStep(s, task);
    forall i: Slot | i != task
      ensures SlotWeight(r.ts, r.lists[Doubled.Index()], i) == SlotWeight(s.ts, s.lists[Doubled.Index()], i)
    {
      RehalveStepOther(s, task, i);
    }
  }

  /** A pass leaves the weight of a slot other than the halved task alone. */
  lemma RehalveStepOther(s: Snapshot, task: Slot, i: Slot)
    requires Shaped(s) && task in s.lists[Doubled.Index()] && i != task
    ensures var r := RehalveStep(s, task);
      SlotWeight(r.ts, r.lists[Doubled.Index()], i) == SlotWeight(s.ts, s.lists[Doubled.Index()], i)
  {
    var l := s.lists[Doubled.Index()];
    var s1 := Out(s, Doubled, task);
    var h := PeriodHalved(s.ts[task]);
    InWithout(l, IndexOf(l, task), i);
    if h.periodMultiplier > 0 {
      var s2 := WithRecord(s1, task, h.(ePriority := EPriority(h)));
      var m := s2.lists[Doubled.Index()];
      InWith(m, InsertIndex(Q1Order(Adap07), s2.ts, m, s2.ts[task]), task, i);
    }
  }

  /** Taking out the element at k leaves every other value's membership alone. */
  lemma InWithout(l: seq<Slot>, k: nat, i: Slot)
    requires k < |l| && i != l[k]
    ensures (i in l[..k] + l[k + 1..]) == (i in l)
  {
    assert l == l[..k] + [l[k]] + l[k + 1..];
  }

  /** Putting t in at k leaves every other value's membership alone. */
  lemma InWith(m: seq<Slot>, k: nat, t: Slot, i: Slot)
    requires k <= |m| && i != t
    ensures (i in m[..k] + [t] + m[k..]) == (i in m)
  {
    assert m == m[..k] + m[k..];
  }

  /** The ADAP-6/7 loop, entered after calculate_all_task_utilities; the loop test reads the fresh set utility. */
  function Doubled67Loop(s: Snapshot): (r: Snapshot)
    requires Consistent(s)
    ensures Consistent(r) && r.running == s.running && r.alg == s.alg && r.counters == s.counters
    decreases DoubledWeight(s.ts, s.lists[Doubled.Index()], NUM_OF_TASKS)
  {
    var util := SetUtility(s.ts);
    if util as nat < MAX_EDF_UTIL then
      var task := DoubledFit(s.ts, s.lists[Doubled.Index()], Spare(util));
      if task != 0 then
        var s1 := RehalveStep(s, task);
        RehalveStepKeeps(s, task);
        RehalveStepWeighs(s, task);
        MetricsKeep(s1, 0, 0, 0);
        UtilitiesKeepWeight(s1);
        DoubledWeightOneSlot(s.ts, s.lists[Doubled.Index()], s1.ts, s1.lists[Doubled.Index()], task, NUM_OF_TASKS);
        Doubled67Loop(Utilities(s1))
      else s
    else s
  }

  /** Recalculating utilities leaves every multiplier, and so the weight, alone. */
  lemma UtilitiesKeepWeight(s: Snapshot)
    requires Shaped(s)
    ensures forall i: Slot :: SlotWeight(Utilities(s).ts, Utilities(s).lists[Doubled.Index()], i) == SlotWeight(s.ts, s.lists[Doubled.Index()], i)
    ensures DoubledWeight(Utilities(s).ts, Utilities(s).lists[Doubled.Index()], NUM_OF_TASKS) == DoubledWeight(s.ts, s.lists[Doubled.Index()], NUM_OF_TASKS)
  {
    forall i: Slot ensures SlotWeight(Utilities(s).ts, Utilities(s).lists[Doubled.Index()], i) == SlotWeight(s.ts, s.lists[Doubled.Index()], i) {
      WithUtilitiesTouchesOnlyUtil(s.ts, i);
    }
    DoubledWeightOneSlot(s.ts, s.lists[Doubled.Index()], Utilities(s).ts, Utilities(s).lists[Doubled.Index()], 0, NUM_OF_TASKS);
  }

  /**
   * process_doubled_periods: ADAP-4 restores doubled tasks against the stored
   * utilities; ADAP-6 and ADAP-7 recalculate the utilities first and after
   * every pass; other policies do nothing.
   */
  function ProcessDoubled(s: Snapshot): (r: Snapshot)
    requires Consistent(s)
    ensures Consistent(r) && r.running == s.running && r.alg == s.alg && r.counters == s.counters
  {
    if s.alg == Adap04 then Doubled4Loop(s)
    else if s.alg == Adap06 || s.alg == Adap07 then
      MetricsKeep(s, 0, 0, 0);
      Doubled67Loop(Utilities(s))
    else s
  }

  // ----------------------------------------------------------------------
  // process_skipped_tasks (EDF_RTO)

  /**
   * A skipped task's new instance: its deadline one relative deadline from
   * now (U32), its time left the measured duration, and NOT_SKIPPED reset to
   * SKIP_GAP cast to U8. Its state is still SKIPPED until it is queued.
   */
  function Rearmed(r: TaskRecord, now: u32): (a: TaskRecord)
    ensures a.absDline == Wrap32(r.relDline as int + now as int) && a.timeLeft == r.cDuration
    ensures a.NotSkipped() == Wrap8(r.SkipGap() as int) && a.state == r.state && a.periodMultiplier == r.periodMultiplier
    ensures a.(absDline := 0, timeLeft := 0, spare2 := 0) == r.(absDline := 0, timeLeft := 0, spare2 := 0)
  {
    r.(absDline := Wrap32(r.relDline as int + now as int), timeLeft := r.cDuration).WithSpare2(Wrap8(r.SkipGap() as int))
  }

  /** A skipped task with no stored laxity goes to the ready queue, any other one to the idle queue. */
  function SkipTarget(r: TaskRecord): (q: Queue)
    ensures q == Queue.Ready || q == Queue.Idle
  {
    if r.laxity == 0 then Queue.Ready else Queue.Idle
  }

  function TargetState(q: Queue): TaskState
  {
    if q == Queue.Ready then TaskState.Ready else TaskState.Idle
  }

  lemma SkippedToTarget(m: seq<bool>, d: bool, runs: bool, alg: Algorithm, q: Queue)
    requires |m| == NUM_OF_QUEUES && Fits(m, Role(TaskState.Skipped, d), runs, alg)
    requires q == Queue.Ready || q == Queue.Idle
    ensures !runs && alg == EdfRto
    ensures Fits(m[Queue.Skipped.Index() := false][q.Index() := true], Role(TargetState(q), d), runs, alg)
  {
  }

  /** The skipped head taken off its queue and re-armed, before it is queued again. */
  function SkippedReleased(s: Snapshot, now: u32): (r: Snapshot)
    requires Shaped(s) && Due(s, Queue.Skipped, now)
    ensures Shaped(r) && |r.lists[Queue.Skipped.Index()]| < |s.lists[Queue.Skipped.Index()]|
    ensures r.running == s.running && r.alg == s.alg && r.counters == s.counters
  {
    var t := s.lists[Queue.Skipped.Index()][0];
    var s1 := FirstOut(s, Queue.Skipped);
    WithRecord(s1, t, Rearmed(s1.ts[t], now))
  }

  /**
   * One pass of the skipped sweep: the head is re-armed, queued in the
   * policy's order on the ready or the idle queue, and then given the state
   * of that queue.
   */
  function SkippedStep(s: Snapshot, now: u32): (r: Snapshot)
    requires Shaped(s) && Due(s, Queue.Skipped, now)
    ensures Shaped(r) && |r.lists[Queue.Skipped.Index()]| < |s.lists[Queue.Skipped.Index()]|
    ensures r.running == s.running && r.alg == s.alg && r.counters == s.counters
    ensures var t := s.lists[Queue.Skipped.Index()][0];
      || (t in r.lists[Queue.Ready.Index()] && r.ts[t].state == TaskState.Ready)
      || (t in r.lists[Queue.Idle.Index()] && r.ts[t].state == TaskState.Idle)
  {
    var t := s.lists[Queue.Skipped.Index()][0];
    var s2 := SkippedReleased(s, now);
    var q := SkipTarget(s2.ts[t]);
    WithRecord(Inserted(s2, q, t, Q0Order(s.alg)), t, s2.ts[t].(state := TargetState(q)))
  }

  /** After the re-arming only the skipped head is out of place; it has left the skipped queue. */
  lemma SkippedReleasedBut(s: Snapshot, now: u32)
    requires Consistent(s) && Due(s, Queue.Skipped, now)
    ensures var t := s.lists[Queue.Skipped.Index()][0]; var r := SkippedReleased(s, now);
      && t != 0 && ConsistentBut(r, t)
      && Fits(Memberships(s.lists, t), Role(TaskState.Skipped, s.ts[t].periodMultiplier >= 1), t == s.running, s.alg)
      && Memberships(r.lists, t) == Memberships(s.lists, t)[Queue.Skipped.Index() := false]
      && r.ts[t] == Rearmed(s.ts[t], now)
  {
    var t := s.lists[Queue.Skipped.Index()][0];
    var s1 := FirstOut(s, Queue.Skipped);
    HeadOut(s, Queue.Skipped);
    ButRecord(s1, t, Rearmed(s1.ts[t], now));
  }

  /** The re-armed task is on no q0 queue and fits the queue it is going to. */
  lemma SkippedFitsTarget(s: Snapshot, now: u32)
    requires Shaped(s) && Due(s, Queue.Skipped, now)
    requires var t := s.lists[Queue.Skipped.Index()][0]; var r := SkippedReleased(s, now);
      && Fits(Memberships(s.lists, t), Role(TaskState.Skipped, s.ts[t].periodMultiplier >= 1), t == s.running, s.alg)
      && Memberships(r.lists, t) == Memberships(s.lists, t)[Queue.Skipped.Index() := false]
      && r.ts[t] == Rearmed(s.ts[t], now)
    ensures var t := s.lists[Queue.Skipped.Index()][0]; var r := SkippedReleased(s, now); var q := SkipTarget(r.ts[t]);
      && Unqueued(r.lists, Q0, t)
      && Fits(Memberships(r.lists, t)[q.Index() := true], RoleOf(r.ts[t].(state := TargetState(q))), t == r.running, r.alg)
  {
    var t := s.lists[Queue.Skipped.Index()][0];
    var r := SkippedReleased(s, now);
    SkippedToTarget(Memberships(s.lists, t), s.ts[t].periodMultiplier >= 1, t == s.running, s.alg, SkipTarget(r.ts[t]));
    Q0Free(r.lists, t);
  }

  lemma SkippedStepKeeps(s: Snapshot, now: u32)
    requires Consistent(s) && Due(s, Queue.Skipped, now)
    ensures Consistent(SkippedStep(s, now))
  {
    var t := s.lists[Queue.Skipped.Index()][0];
    var s2 := SkippedReleased(s, now);
    var q := SkipTarget(s2.ts[t]);
    SkippedReleasedBut(s, now);
    SkippedFitsTarget(s, now);
    InsertedThenRecord(s2, q, t, Q0Order(s.alg), s2.ts[t].(state := TargetState(q)));
  }

  /** process_skipped_tasks: skipped tasks whose deadline has come are released until the head's lies ahead. */
  function ProcessSkipped(s: Snapshot, now: u32): (r: Snapshot)
    requires Consistent(s)
    ensures Consistent(r) && !Due(r, Queue.Skipped, now)
    ensures r.running == s.running && r.alg == s.alg && r.counters == s.counters
    decreases |s.lists[Queue.Skipped.Index()]|
  {
    if Due(s, Queue.Skipped, now) then
      SkippedStepKeeps(s, now);
      ProcessSkipped(SkippedStep(s, now), now)
    else s
  }

  // ----------------------------------------------------------------------
  // process_idle_tasks

  /**
   * An idle task's new instance: its deadline moves on by the relative
   * deadline, shifted left by the multiplier when the period is flexible
   * (U32), its time left is the measured duration and it is READY.
   */
  function Released(r: TaskRecord): (a: TaskRecord)
    ensures r.PeriodFlexible() == 1 ==> a.absDline == Wrap32(r.absDline as int + r.relDline as int * Pow2(r.periodMultiplier as nat))
    ensures r.PeriodFlexible() != 1 ==> a.absDline == Wrap32(r.absDline as int + r.relDline as int)
    ensures a.timeLeft == r.cDuration && a.state == TaskState.Ready && a.periodMultiplier == r.periodMultiplier
    ensures a.(absDline := 0, timeLeft := 0, state := Sleep) == r.(absDline := 0, timeLeft := 0, state := Sleep)
  {
    var period := if r.PeriodFlexible() == 1 then Wrap32(Shl(r.relDline as nat, r.periodMultiplier as nat)) else r.relDline;
    WrapTwice(r.absDline as int, Shl(r.relDline as nat, r.periodMultiplier as nat));
    r.(absDline := Wrap32(r.absDline as int + period as int), timeLeft := r.cDuration, state := TaskState.Ready)
  }

  /** Truncating the addend first does not change a truncated sum. */
  lemma WrapTwice(a: int, b: int)
    ensures Wrap32(a + Wrap32(b)) == Wrap32(a + b)
  {
    var q := b / TWO_32;
    assert b == q * TWO_32 + Wrap32(b);
    assert a + b == (a + Wrap32(b)) + q * TWO_32;
  }

  lemma IdleToReady(m: seq<bool>, d: bool, runs: bool, alg: Algorithm)
    requires |m| == NUM_OF_QUEUES && Fits(m, Role(TaskState.Idle, d), runs, alg)
    ensures !runs && (MirrorsLst(alg) ==> !m[Lst.Index()])
    ensures !MirrorsLst(alg) ==> Fits(m[Queue.Idle.Index() := false][Queue.Ready.Index() := true], Role(TaskState.Ready, d), runs, alg)
    ensures Fits(m[Queue.Idle.Index() := false][Queue.Ready.Index() := true][Lst.Index() := MirrorsLst(alg)], Role(TaskState.Ready, d), runs, alg)
  {
  }

  /** The release of the idle head, before it is queued: extracted, renewed, metrics recalculated. */
  function IdleReleased(s: Snapshot, now: u32): (r: Snapshot)
    requires Shaped(s) && Due(s, Queue.Idle, now)
    ensures Shaped(r) && |r.lists[Queue.Idle.Index()]| < |s.lists[Queue.Idle.Index()]|
    ensures r.running == s.running && r.alg == s.alg && r.counters == s.counters
  {
    var t := s.lists[Queue.Idle.Index()][0];
    var s1 := FirstOut(s, Queue.Idle);
    Urgencies(Laxities(WithRecord(s1, t, Released(s1.ts[t])), now))
  }

  /**
   * One pass of the idle sweep: the head is released, queued as ready in the
   * policy's order and, under ADAP-5 and ADAP-6, also in the lst queue by laxity.
   */
  function IdleStep(s: Snapshot, now: u32): (r: Snapshot)
    requires Shaped(s) && Due(s, Queue.Idle, now)
    ensures Shaped(r) && |r.lists[Queue.Idle.Index()]| < |s.lists[Queue.Idle.Index()]|
    ensures r.running == s.running && r.alg == s.alg && r.counters == s.counters
    ensures var t := s.lists[Queue.Idle.Index()][0];
      t in r.lists[Queue.Ready.Index()] && r.ts[t].state == TaskState.Ready
  {
    var t := s.lists[Queue.Idle.Index()][0];
    var s3 := Inserted(IdleReleased(s, now), Queue.Ready, t, Q0Order(s.alg));
    if MirrorsLst(s.alg) then Inserted(s3, Lst, t, Q2Order(Llf)) else s3
  }

  /** After the release only the released task is out of place; it has left the idle queue and is READY. */
  lemma IdleReleasedBut(s: Snapshot, now: u32)
    requires Consistent(s) && Due(s, Queue.Idle, now)
    ensures var t := s.lists[Queue.Idle.Index()][0]; var r := IdleReleased(s, now);
      && t != 0 && ConsistentBut(r, t)
      && Fits(Memberships(s.lists, t), Role(TaskState.Idle, s.ts[t].periodMultiplier >= 1), t == s.running, s.alg)
      && Memberships(r.lists, t) == Memberships(s.lists, t)[Queue.Idle.Index() := false]
      && RoleOf(r.ts[t]) == Role(TaskState.Ready, s.ts[t].periodMultiplier >= 1)
  {
    var t := s.lists[Queue.Idle.Index()][0];
    var s1 := FirstOut(s, Queue.Idle);
    HeadOut(s, Queue.Idle);
    Renewed(s1, t, Released(s1.ts[t]), now);
  }

  /** The released task is on no q0 queue and, once in the ready queue (and in lst under ADAP-5/6), fits. */
  lemma IdleFitsReady(s: Snapshot, now: u32)
    requires Shaped(s) && Due(s, Queue.Idle, now)
    requires var t := s.lists[Queue.Idle.Index()][0]; var r := IdleReleased(s, now);
      && Fits(Memberships(s.lists, t), Role(TaskState.Idle, s.ts[t].periodMultiplier >= 1), t == s.running, s.alg)
      && Memberships(r.lists, t) == Memberships(s.lists, t)[Queue.Idle.Index() := false]
      && RoleOf(r.ts[t]) == Role(TaskState.Ready, s.ts[t].periodMultiplier >= 1)
    ensures var t := s.lists[Queue.Idle.Index()][0]; var r := IdleReleased(s, now);
      && Unqueued(r.lists, Q0, t) && (MirrorsLst(s.alg) ==> !Memberships(r.lists, t)[Lst.Index()])
      && (!MirrorsLst(s.alg) ==> Fits(Memberships(r.lists, t)[Queue.Ready.Index() := true], RoleOf(r.ts[t]), t == r.running, r.alg))
      && (MirrorsLst(s.alg) ==> Fits(Memberships(r.lists, t)[Queue.Ready.Index() := true][Lst.Index() := true], RoleOf(r.ts[t]), t == r.running, r.alg))
  {
    var t := s.lists[Queue.Idle.Index()][0];
    var r := IdleReleased(s, now);
    IdleToReady(Memberships(s.lists, t), s.ts[t].periodMultiplier >= 1, t == s.running, s.alg);
    Q0Free(r.lists, t);
  }

  lemma IdleStepKeeps(s: Snapshot, now: u32)
    requires Consistent(s) && Due(s, Queue.Idle, now)
    ensures Consistent(IdleStep(s, now))
  {
    var t := s.lists[Queue.Idle.Index()][0];
    var s2 := IdleReleased(s, now);
    IdleReleasedBut(s, now);
    IdleFitsReady(s, now);
    if MirrorsLst(s.alg) {
      IdleMirroredKeeps(s, now);
    } else {
      InsertedFits(s2, Queue.Ready, t, Q0Order(s.alg));
    }
  }

  /** Under ADAP-5/6 the released task, once in the ready queue, is only missing from the lst queue. */
  lemma IdleReadyBut(s: Snapshot, now: u32)
    requires Consistent(s) && Due(s, Queue.Idle, now) && MirrorsLst(s.alg)
    ensures var t := s.lists[Queue.Idle.Index()][0]; var r := Inserted(IdleReleased(s, now), Queue.Ready, t, Q0Order(s.alg));
      && t != 0 && ConsistentBut(r, t) && Unqueued(r.lists, Q2, t)
      && Fits(Memberships(r.lists, t)[Lst.Index() := true], RoleOf(r.ts[t]), t == r.running, r.alg)
  {
    var t := s.lists[Queue.Idle.Index()][0];
    var s2 := IdleReleased(s, now);
    IdleReleasedBut(s, now);
    IdleFitsReady(s, now);
    InsertedBut(s2, Queue.Ready, t, Q0Order(s.alg));
    InsertedFitsAgain(s2, Queue.Ready, t, Q0Order(s.alg), Lst);
    Q2Free(Inserted(s2, Queue.Ready, t, Q0Order(s.alg)).lists, t);
  }

  lemma IdleMirroredKeeps(s: Snapshot, now: u32)
    requires Consistent(s) && Due(s, Queue.Idle, now) && MirrorsLst(s.alg)
    ensures var t := s.lists[Queue.Idle.Index()][0];
      Consistent(Inserted(Inserted(IdleReleased(s, now), Queue.Ready, t, Q0Order(s.alg)), Lst, t, Q2Order(Llf)))
  {
    IdleReadyBut(s, now);
    MirrorInsertKeeps(Inserted(IdleReleased(s, now), Queue.Ready, s.lists[Queue.Idle.Index()][0], Q0Order(s.alg)), s.lists[Queue.Idle.Index()][0]);
  }

  /** A task consistent everywhere but the lst queue is made consistent by its q2 insertion there. */
  lemma MirrorInsertKeeps(u: Snapshot, t: Slot)
    requires t != 0 && ConsistentBut(u, t) && Unqueued(u.lists, Q2, t)
    requires Fits(Memberships(u.lists, t)[Lst.Index() := true], RoleOf(u.ts[t]), t == u.running, u.alg)
    ensures Consistent(Inserted(u, Lst, t, Q2Order(Llf)))
  {
    InsertedFits(u, Lst, t, Q2Order(Llf));
  }

  /** process_idle_tasks: idle tasks whose deadline has come become ready until the head's lies ahead. */
  function ProcessIdle(s: Snapshot, now: u32): (r: Snapshot)
    requires Consistent(s)
    ensures Consistent(r) && !Due(r, Queue.Idle, now)
    ensures r.running == s.running && r.alg == s.alg && r.counters == s.counters
    decreases |s.lists[Queue.Idle.Index()]|
  {
    if Due(s, Queue.Idle, now) then
      IdleStepKeeps(s, now);
      ProcessIdle(IdleStep(s, now), now)
    else s
  }

  // ----------------------------------------------------------------------
  // SCH_add_task

  /** TSK_add_task on the snapshot: an in-range template is loaded into the purged slot, whose links are cleared. */
  function Loading(s: Snapshot, slot: Slot, templateId: u8, templates: seq<StoredTask>): (r: Snapshot)
    requires Shaped(s)
    ensures Shaped(r) && r.lists == s.lists && r.hs == s.hs && r.running == s.running && r.alg == s.alg
    ensures r.counters == s.counters
  {
    if templateId as int < |templates| then
      s.(ts := s.ts[slot := Loaded(s.ts[slot], templates[templateId])], ls := s.ls[slot := NoLinks])
    else s
  }

  /** The record SCH_add_task queues: its duration estimate copied, WAITING until its release or IDLE. */
  function Admitted(r: TaskRecord): (a: TaskRecord)
    ensures a.state == (if r.release > 0 then TaskState.Waiting else TaskState.Idle)
    ensures a.cDuration == r.duration && a.periodMultiplier == r.periodMultiplier
    ensures r.release > 0 ==> a.absDline == r.release
  {
    if r.release > 0 then r.(cDuration := r.duration, state := TaskState.Waiting, absDline := r.release)
    else r.(cDuration := r.duration, state := TaskState.Idle)
  }

  /** The queue an admitted task goes to. */
  function AdmittedQueue(r: TaskRecord): (q: Queue)
    ensures q.Link() == Q0
  {
    if r.release > 0 then Queue.Waiting else Queue.Idle
  }

  /**
   * SCH_add_task: the template is loaded; a task with a non-zero id is
   * admitted, queued in deadline order, and its not-skipped count set to
   * its skip gap (U8).
   */
  function Added(s: Snapshot, slot: Slot, templateId: u8, templates: seq<StoredTask>): (r: Snapshot)
    requires Shaped(s)
    ensures Shaped(r)
  {
    var s1 := Loading(s, slot, templateId, templates);
    var t := s1.ts[slot];
    if t.id > 0 then
      var a := Admitted(t);
      var s2 := Inserted(WithRecord(s1, slot, a), AdmittedQueue(t), slot, Q0Order(Edf));
      WithRecord(s2, slot, a.WithSpare2(Wrap8(a.SkipGap() as int)))
    else s1
  }

  /** A task on no queue fits as SLEEP. */
  lemma FreshSleeps(m: seq<bool>, d: bool, alg: Algorithm)
    requires |m| == NUM_OF_QUEUES && !m[0] && !m[1] && !m[2] && !m[3] && !m[4] && !m[5] && !m[6]
    ensures Fits(m, Role(Sleep, d), false, alg)
  {
  }

  /** A task on no queue fits once on the waiting queue as WAITING. */
  lemma FreshWaits(m: seq<bool>, d: bool, alg: Algorithm)
    requires |m| == NUM_OF_QUEUES && !m[0] && !m[1] && !m[2] && !m[3] && !m[4] && !m[5] && !m[6]
    ensures Fits(m[Queue.Waiting.Index() := true], Role(TaskState.Waiting, d), false, alg)
  {
  }

  /** A task on no queue fits once on the idle queue as IDLE. */
  lemma FreshIdles(m: seq<bool>, d: bool, alg: Algorithm)
    requires |m| == NUM_OF_QUEUES && !m[0] && !m[1] && !m[2] && !m[3] && !m[4] && !m[5] && !m[6]
    ensures Fits(m[Queue.Idle.Index() := true], Role(TaskState.Idle, d), false, alg)
  {
  }

  /** A slot on no queue that is not running is SLEEP. */
  lemma UnqueuedSleeps(m: seq<bool>, r: TaskRecord, alg: Algorithm)
    requires |m| == NUM_OF_QUEUES && !m[0] && !m[1] && !m[2] && !m[4] && !m[5] && Fits(m, RoleOf(r), false, alg)
    ensures r.state == Sleep
  {
  }

  /** Clearing the links of a slot on no queue keeps the queue invariant. */
  lemma ClearedLinksKeep(s: Snapshot, slot: Slot)
    requires Shaped(s) && QueuesOk(s.ls, s.hs, s.lists) && slot != 0
    requires forall h: Queue :: slot !in s.lists[h.Index()]
    ensures QueuesOk(s.ls[slot := NoLinks], s.hs, s.lists)
  {
    var ls' := s.ls[slot := NoLinks];
    forall h: Queue ensures Linked(ls', h.Link(), s.hs[h.Index()].Next(h.Link()), s.lists[h.Index()])
    {
      var l := s.lists[h.Index()];
      assert Linked(s.ls, h.Link(), s.hs[h.Index()].Next(h.Link()), l);
      LinkedFrame(s.ls, ls', h.Link(), s.hs[h.Index()].Next(h.Link()), l);
    }
  }

  /** Loading a slot on no queue leaves every other task consistent and the slot SLEEP or untouched. */
  lemma LoadingBut(s: Snapshot, slot: Slot, templateId: u8, templates: seq<StoredTask>)
    requires Consistent(s) && slot != 0 && slot != s.running
    requires forall h: Queue :: slot !in s.lists[h.Index()]
    ensures var r := Loading(s, slot, templateId, templates);
      && ConsistentBut(r, slot) && r.ts[slot].state == Sleep
      && forall k :: 0 <= k < NUM_OF_QUEUES ==> !Memberships(r.lists, slot)[k]
  {
    var m := Memberships(s.lists, slot);
    forall k | 0 <= k < NUM_OF_QUEUES ensures !m[k]
    {
      var g: Queue :| g.Index() == k by {
        if k == 0 { assert Queue.Ready.Index() == k; }
        else if k == 1 { assert Queue.Idle.Index() == k; }
        else if k == 2 { assert Queue.Skipped.Index() == k; }
        else if k == 3 { assert Lst.Index() == k; }
        else if k == 4 { assert Queue.Removed.Index() == k; }
        else if k == 5 { assert Queue.Waiting.Index() == k; }
        else { assert Doubled.Index() == k; }
      }
    }
    assert SlotOk(s, slot);
    UnqueuedSleeps(m, s.ts[slot], s.alg);
    ConsistentForAllBut(s, slot);
    if templateId as int < |templates| {
      ClearedLinksKeep(s, slot);
      ButLists(s, s.ls[slot := NoLinks], s.hs, s.lists, slot);
      ButRecord(s.(ls := s.ls[slot := NoLinks]), slot, Loaded(s.ts[slot], templates[templateId]));
    }
  }

  /**
   * SCH_add_task into a slot that is on no queue and not running keeps the
   * invariant: a task with an id waits or idles on its queue, one without
   * sleeps.
   */
  lemma AddedKeeps(s: Snapshot, slot: Slot, templateId: u8, templates: seq<StoredTask>)
    requires Consistent(s) && slot != 0 && slot != s.running
    requires forall h: Queue :: slot !in s.lists[h.Index()]
    ensures Consistent(Added(s, slot, templateId, templates))
  {
    var s1 := Loading(s, slot, templateId, templates);
    var t := s1.ts[slot];
    LoadingBut(s, slot, templateId, templates);
    var m := Memberships(s1.lists, slot);
    if t.id > 0 {
      var a := Admitted(t);
      if t.release > 0 {
        FreshWaits(m, t.periodMultiplier >= 1, s.alg);
      } else {
        FreshIdles(m, t.periodMultiplier >= 1, s.alg);
      }
      Q0Free(s1.lists, slot);
      ButRecord(s1, slot, a);
      InsertedThenRecord(WithRecord(s1, slot, a), AdmittedQueue(t), slot, Q0Order(Edf), a.WithSpare2(Wrap8(a.SkipGap() as int)));
    } else {
      FreshSleeps(m, t.periodMultiplier >= 1, s.alg);
      ConsistentAgain(s1, slot);
    }
  }
}

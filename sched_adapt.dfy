// The overload adaptations of scheduler.c: ADAP-1/2 remove the least
// important flexible task while the task set utility exceeds 100%, ADAP-3/4/5
// double its period while the utility (ADAP-3/4) or the head's laxity
// (ADAP-5) says the set is overloaded, and ADAP-6/7 do the same within a
// bounded number of passes. Each ends with the EDF test.

module SchedAdapt {
  import opened CTypes
  import opened Task
  import opened TestReport
  import opened Queues
  import opened Metrics
  import opened SchedState
  import opened SchedOps
  import opened SchedSteps
  import opened SchedPolicy

  /**
   * How an unbounded adaptation loop ends: with the next state, or by
   * spinning for ever once no task is left to remove or double (the source's
   * loop then makes no progress on the utility or laxity it tests).
   */
  datatype Outcome = Done(s: Snapshot) | Hung

  /** The state, the loop's utility variable and its pass count after a bounded loop. */
  datatype Pass = Pass(s: Snapshot, util: u16, count: nat)

  // ----------------------------------------------------------------------
  // Task set utility under a change to one slot

  /** What slot i adds to UtilitySum. */
  function Term(ts: seq<TaskRecord>, i: Slot): nat
    requires |ts| == NUM_OF_TASKS
  {
    if UtilityState(ts[i].state) then Contribution(ts[i], ts[i].taskUtil) else 0
  }

  /** Changing one record moves the task set utility by the change in that record's term. */
  lemma {:induction false} UtilitySumOneSlot(ts: seq<TaskRecord>, ts': seq<TaskRecord>, t: Slot, n: nat)
    requires |ts| == NUM_OF_TASKS && |ts'| == NUM_OF_TASKS && n <= NUM_OF_TASKS
    requires forall i: Slot :: i != t ==> ts'[i] == ts[i]
    ensures 1 <= t < n ==> UtilitySum(ts', n) + Term(ts, t) == UtilitySum(ts, n) + Term(ts', t)
    ensures t == 0 || t >= n ==> UtilitySum(ts', n) == UtilitySum(ts, n)
  {
    if n > 1 {
      UtilitySumOneSlot(ts, ts', t, n - 1);
    }
  }

  // ----------------------------------------------------------------------
  // ADAP-1 / ADAP-2: removal

  /**
   * The record of a removed task: TOTAL_SKIPS (spare_2) up by one, then state
   * REMOVED. Since spare_2 is also PERIOD_FLEXIBLE, a removed task that was
   * flexible (1) reads as 2 afterwards.
   */
  function RemovedRecord(r: TaskRecord): (d: TaskRecord)
    ensures d.state == TaskState.Removed && d.TotalSkips() == Wrap32(r.TotalSkips() as int + 1)
    ensures d.(state := r.state, spare2 := r.spare2) == r
  {
    r.WithSpare2(Wrap32(r.TotalSkips() as int + 1)).(state := TaskState.Removed)
  }

  /** A task removed once is never removable again, whatever state it is later given. */
  lemma RemovedOnlyOnce(r: TaskRecord, st: TaskState)
    requires Removable(r)
    ensures RemovedRecord(r).PeriodFlexible() == 2
    ensures !Removable(RemovedRecord(r).(state := st))
  {
  }

  /** The removed task off its q0 queue, its TOTAL_SKIPS and the report's removal count up by one. */
  function Unhooked(s: Snapshot, t: Slot): (r: Snapshot)
    requires Shaped(s) && t in s.lists[ExtractHeader(s.ts[t].state).Index()]
    ensures Shaped(r) && r.running == s.running && r.alg == s.alg
    ensures r.ts == s.ts[t := s.ts[t].WithSpare2(Wrap32(s.ts[t].TotalSkips() as int + 1))]
    ensures r.counters == Counted(s.counters, Removals, 1)
    ensures r.lists == Out(s, ExtractHeader(s.ts[t].state), t).lists
  {
    var s1 := Out(s, ExtractHeader(s.ts[t].state), t);
    WithRecord(s1, t, s1.ts[t].WithSpare2(Wrap32(s1.ts[t].TotalSkips() as int + 1)))
      .(counters := Counted(s1.counters, Removals, 1))
  }

  /**
   * One removal of the ADAP-1 loop, after any pre-emption: the task leaves
   * its q0 queue, the report's removal count and its TOTAL_SKIPS go up, it
   * joins the removed queue in priority order and becomes REMOVED.
   */
  function Removal(s: Snapshot, t: Slot): (r: Snapshot)
    requires Shaped(s) && t in s.lists[ExtractHeader(s.ts[t].state).Index()]
    ensures Shaped(r) && r.running == s.running && r.alg == s.alg
    ensures r.ts == s.ts[t := RemovedRecord(s.ts[t])]
    ensures r.counters == Counted(s.counters, Removals, 1)
  {
    var s3 := Inserted(Unhooked(s, t), Queue.Removed, t, Q0Order(Rm));
    WithRecord(s3, t, s3.ts[t].(state := TaskState.Removed))
  }

  lemma ActiveToRemoved(m: seq<bool>, st: TaskState, d: bool, alg: Algorithm)
    requires |m| == NUM_OF_QUEUES && Fits(m, Role(st, d), false, alg)
    requires st == TaskState.Ready || st == Preempted || st == TaskState.Idle
    requires alg == Adap01 || alg == Adap02
    ensures m[ExtractHeader(st).Index()]
    ensures var m' := m[ExtractHeader(st).Index() := false];
      && !m'[0] && !m'[1] && !m'[2] && !m'[4] && !m'[5]
      && Fits(m'[Queue.Removed.Index() := true], Role(TaskState.Removed, d), false, alg)
  {
  }

  /** Off its queue, the task is on no q0 queue and fits the removed queue as REMOVED. */
  lemma RemovalFits(lists: seq<seq<Slot>>, m: seq<bool>, t: Slot, st: TaskState, d: bool, alg: Algorithm)
    requires |lists| == NUM_OF_QUEUES && |m| == NUM_OF_QUEUES && Fits(m, Role(st, d), false, alg)
    requires st == TaskState.Ready || st == Preempted || st == TaskState.Idle
    requires alg == Adap01 || alg == Adap02
    requires Memberships(lists, t) == m[ExtractHeader(st).Index() := false]
    ensures Unqueued(lists, Q0, t)
    ensures Fits(Memberships(lists, t)[Queue.Removed.Index() := true], Role(TaskState.Removed, d), false, alg)
  {
    ActiveToRemoved(m, st, d, alg);
    Q0Free(lists, t);
  }

  /** A member taken off a queue and given a new record and counters: every other task is still consistent. */
  lemma OutRecordBut(s: Snapshot, h: Queue, t: Slot, rec: TaskRecord, c: seq<u32>)
    requires Consistent(s) && t in s.lists[h.Index()] && |c| == TST_MAX_TST
    ensures var u := WithRecord(Out(s, h, t), t, rec).(counters := c);
      && t != 0 && ConsistentBut(u, t) && Fits(Memberships(s.lists, t), RoleOf(s.ts[t]), t == s.running, s.alg)
      && Memberships(u.lists, t) == Memberships(s.lists, t)[h.Index() := false]
  {
    MemberOut(s, h, t);
    ButRecord(Out(s, h, t), t, rec);
    ButCounters(WithRecord(Out(s, h, t), t, rec), t, c);
  }

  /** Unhooking the task keeps every other task consistent. */
  lemma UnhookedBut(s: Snapshot, t: Slot)
    requires Consistent(s) && t != 0 && t != s.running
    requires s.ts[t].state == TaskState.Ready || s.ts[t].state == Preempted || s.ts[t].state == TaskState.Idle
    ensures t in s.lists[ExtractHeader(s.ts[t].state).Index()]
    ensures var u := Unhooked(s, t);
      && ConsistentBut(u, t) && Fits(Memberships(s.lists, t), RoleOf(s.ts[t]), false, s.alg)
      && Memberships(u.lists, t) == Memberships(s.lists, t)[ExtractHeader(s.ts[t].state).Index() := false]
  {
    var h := ExtractHeader(s.ts[t].state);
    ExtractHeaderFinds(s, t);
    var rec, c := s.ts[t].WithSpare2(Wrap32(s.ts[t].TotalSkips() as int + 1)), Counted(s.counters, Removals, 1);
    OutRecordBut(s, h, t, rec, c);
    UnhookedIs(s, t);
  }

  /** Unhooked as the composition its proofs work with. */
  lemma UnhookedIs(s: Snapshot, t: Slot)
    requires Shaped(s) && t in s.lists[ExtractHeader(s.ts[t].state).Index()]
    ensures Unhooked(s, t) == WithRecord(Out(s, ExtractHeader(s.ts[t].state), t), t,
      s.ts[t].WithSpare2(Wrap32(s.ts[t].TotalSkips() as int + 1))).(counters := Counted(s.counters, Removals, 1))
  {
  }

  /** Removal as the composition its proof works with. */
  lemma RemovalIs(s: Snapshot, t: Slot)
    requires Shaped(s) && t in s.lists[ExtractHeader(s.ts[t].state).Index()]
    ensures Removal(s, t) == WithRecord(Inserted(Unhooked(s, t), Queue.Removed, t, Q0Order(Rm)), t, RemovedRecord(s.ts[t]))
    ensures t in Removal(s, t).lists[Queue.Removed.Index()]
    ensures Unhooked(s, t).ts[t].(state := TaskState.Removed) == RemovedRecord(s.ts[t])
  {
    var u := Unhooked(s, t);
    var s3 := Inserted(u, Queue.Removed, t, Q0Order(Rm));
    assert s3.ts[t].(state := TaskState.Removed) == RemovedRecord(s.ts[t]);
    var l := u.lists[Queue.Removed.Index()];
    var k := InsertIndex(Q0Order(Rm), u.ts, l, u.ts[t]);
    assert (l[..k] + [t] + l[k..])[k] == t;
  }

  /** With the others consistent and the unhooked task's memberships known, the removal restores the invariant. */
  lemma RemovalFinish(s: Snapshot, t: Slot)
    requires Shaped(s) && t != 0 && t != s.running && (s.alg == Adap01 || s.alg == Adap02)
    requires s.ts[t].state == TaskState.Ready || s.ts[t].state == Preempted || s.ts[t].state == TaskState.Idle
    requires t in s.lists[ExtractHeader(s.ts[t].state).Index()]
    requires Fits(Memberships(s.lists, t), RoleOf(s.ts[t]), false, s.alg)
    requires ConsistentBut(Unhooked(s, t), t)
    requires Memberships(Unhooked(s, t).lists, t) == Memberships(s.lists, t)[ExtractHeader(s.ts[t].state).Index() := false]
    ensures Consistent(Removal(s, t)) && t !in Unhooked(s, t).lists[Queue.Removed.Index()]
  {
    var u := Unhooked(s, t);
    RemovalFits(u.lists, Memberships(s.lists, t), t, s.ts[t].state, s.ts[t].periodMultiplier >= 1, s.alg);
    InsertedThenRecord(u, Queue.Removed, t, Q0Order(Rm), RemovedRecord(s.ts[t]));
    RemovalIs(s, t);
  }

  lemma RemovalKeeps(s: Snapshot, t: Slot)
    requires Consistent(s) && t != 0 && t != s.running && (s.alg == Adap01 || s.alg == Adap02)
    requires s.ts[t].state == TaskState.Ready || s.ts[t].state == Preempted || s.ts[t].state == TaskState.Idle
    ensures t in s.lists[ExtractHeader(s.ts[t].state).Index()]
    ensures Consistent(Removal(s, t)) && t in Removal(s, t).lists[Queue.Removed.Index()]
    ensures var u := Unhooked(s, t); QueuesOk(u.ls, u.hs, u.lists) && t !in u.lists[Queue.Removed.Index()]
  {
    UnhookedBut(s, t);
    RemovalFinish(s, t);
    RemovalIs(s, t);
  }

  /** A removable task that is not running is ready, pre-empted or idle under ADAP-1/2. */
  lemma RemovableWaits(s: Snapshot, t: Slot)
    requires Consistent(s) && t != 0 && t != s.running && (s.alg == Adap01 || s.alg == Adap02)
    requires Removable(s.ts[t])
    ensures s.ts[t].state == TaskState.Ready || s.ts[t].state == Preempted || s.ts[t].state == TaskState.Idle
  {
    MemberFits(s, t);
  }

  /** The pre-emption the ADAP-1 loop makes when the chosen task is the running one. */
  function Unseat(s: Snapshot, t: Slot): (r: Snapshot)
    requires Consistent(s)
    ensures Consistent(r) && r.alg == s.alg
    ensures t == s.running && t != 0 ==> r.running == 0 && r.ts == s.ts[t := PreemptedRecord(s.ts[t])]
    ensures t != s.running || t == 0 ==> r == s
  {
    if t == s.running && t != 0 then PreemptKeeps(s); Preempt(s) else s
  }

  /**
   * The body of the ADAP-1 loop for the chosen task: pre-empted first when it
   * is the running task, then removed.
   */
  function RemoveStep(s: Snapshot, t: Slot): (r: Snapshot)
    requires Consistent(s) && t != 0 && Removable(s.ts[t]) && (s.alg == Adap01 || s.alg == Adap02)
    ensures Consistent(r) && r.alg == s.alg && t in r.lists[Queue.Removed.Index()]
    ensures r.running == if t == s.running then 0 else s.running
    ensures r.ts == Unseat(s, t).ts[t := RemovedRecord(Unseat(s, t).ts[t])]
  {
    var s1 := Unseat(s, t);
    assert Removable(s1.ts[t]);
    RemovableWaits(s1, t);
    RemovalKeeps(s1, t);
    Removal(s1, t)
  }

  /** The records after a removal step: the chosen task pre-empted if it ran, and removed; no other record changes. */
  lemma RemoveStepRecords(s: Snapshot, t: Slot)
    requires Consistent(s) && t != 0 && Removable(s.ts[t]) && (s.alg == Adap01 || s.alg == Adap02)
    ensures RemoveStep(s, t).ts == s.ts[t := RemovedRecord(if t == s.running then PreemptedRecord(s.ts[t]) else s.ts[t])]
  {
    if t == s.running {
      var p := PreemptedRecord(s.ts[t]);
      assert Unseat(s, t).ts == s.ts[t := p];
      OverwrittenTwice(s.ts, t, p, RemovedRecord(p));
    }
  }

  /** A second write to the same slot hides the first. */
  lemma OverwrittenTwice(ts: seq<TaskRecord>, t: nat, a: TaskRecord, b: TaskRecord)
    requires t < |ts|
    ensures ts[t := a][t := b] == ts[t := b]
  {
  }

  /** What the ADAP loops need of get_lowest_priority_active_task: a removable task, or 0 when none is left. */
  lemma LowestIsRemovable(ts: seq<TaskRecord>)
    requires |ts| == NUM_OF_TASKS
    ensures LowestActive(ts) != 0 ==> Removable(ts[LowestActive(ts)])
    ensures LowestActive(ts) == 0 <==> RemovableCount(ts, NUM_OF_TASKS) == 0
  {
    LowestActivePicks(ts);
    RemovableCountZero(ts, NUM_OF_TASKS);
  }

  /** Replacing a removable record by one that is not leaves one removable task fewer. */
  lemma UpdateCounts(ts: seq<TaskRecord>, t: Slot, rec: TaskRecord)
    requires |ts| == NUM_OF_TASKS && t != 0 && Removable(ts[t]) && !Removable(rec)
    ensures RemovableCount(ts[t := rec], NUM_OF_TASKS) < RemovableCount(ts, NUM_OF_TASKS)
  {
    RemovableCountDrops(ts, ts[t := rec], t, NUM_OF_TASKS);
  }

  /** A removal step leaves one removable task fewer. */
  lemma RemoveStepCounts(s: Snapshot, t: Slot)
    requires Consistent(s) && t != 0 && Removable(s.ts[t]) && (s.alg == Adap01 || s.alg == Adap02)
    ensures RemovableCount(RemoveStep(s, t).ts, NUM_OF_TASKS) < RemovableCount(s.ts, NUM_OF_TASKS)
  {
    RemoveStepRecords(s, t);
    UpdateCounts(s.ts, t, RemovedRecord(if t == s.running then PreemptedRecord(s.ts[t]) else s.ts[t]));
  }

  /**
   * The while loop of schedule_adapive_one_algorithm: while the utility is
   * above 100%, the least important removable task is pre-empted if it runs
   * and removed, and the utility is read again from the stored task
   * utilities. With no removable task left the loop spins.
   */
  function Adap1Loop(s: Snapshot, util: u16): (o: Outcome)
    requires Consistent(s) && (s.alg == Adap01 || s.alg == Adap02)
    ensures o.Done? ==> Consistent(o.s) && o.s.alg == s.alg
    ensures util as nat <= MAX_EDF_UTIL ==> o == Done(s)
    ensures o.Done? && util as nat > MAX_EDF_UTIL ==> SetUtility(o.s.ts) as nat <= MAX_EDF_UTIL
    ensures util as nat > MAX_EDF_UTIL && RemovableCount(s.ts, NUM_OF_TASKS) == 0 ==> o == Hung
    decreases RemovableCount(s.ts, NUM_OF_TASKS)
  {
    if util as nat <= MAX_EDF_UTIL then Done(s)
    else
      var t := LowestActive(s.ts);
      LowestIsRemovable(s.ts);
      if t == 0 then Hung
      else
        var r := RemoveStep(s, t);
        RemoveStepCounts(s, t);
        Adap1Loop(r, SetUtility(r.ts))
  }

  /**
   * The ADAP-1/2 handler: utilities recalculated, the removal loop, then
   * process_removed_tasks and the EDF test.
   */
  function Adap1(s: Snapshot, now: u32): (o: Outcome)
    requires Consistent(s) && (s.alg == Adap01 || s.alg == Adap02)
    ensures o.Done? ==> Consistent(o.s) && o.s.alg == s.alg
    ensures SetUtility(WithUtilities(s.ts)) as nat > MAX_EDF_UTIL && RemovableCount(WithUtilities(s.ts), NUM_OF_TASKS) == 0 ==> o == Hung
  {
    var u := Utilities(s);
    MetricsKeep(s, 0, now, 0);
    match Adap1Loop(u, SetUtility(u.ts))
    case Hung => Hung
    case Done(r) => Done(EdfPolicy(ProcessRemoved(r, now)))
  }

  // ----------------------------------------------------------------------
  // ADAP-3 to ADAP-7: period doubling

  /** Recalculating one laxity leaves the task set utility as it was. */
  lemma LaxityKeepsUtility(s: Snapshot, t: Slot, now: u32)
    requires Shaped(s)
    ensures SetUtility(LaxityOf(s, t, now).ts) == SetUtility(s.ts)
  {
    UtilitySumOneSlot(s.ts, LaxityOf(s, t, now).ts, t, NUM_OF_TASKS);
  }

  /** Recalculating the laxities changes no task's removability. */
  lemma {:induction false} LaxitiesKeepCount(ts: seq<TaskRecord>, now: u32, n: nat)
    requires |ts| == NUM_OF_TASKS && n <= NUM_OF_TASKS
    ensures RemovableCount(WithLaxities(ts, now), n) == RemovableCount(ts, n)
  {
    if n > 1 {
      LaxitiesKeepCount(ts, now, n - 1);
      WithLaxitiesTouchesOnlyLaxity(ts, now, n - 1);
    }
  }

  /**
   * double_task_period on the state: the record as PeriodDoubled leaves it,
   * and the report's doubling count up by one when the task is flexible.
   */
  function Doubling(s: Snapshot, t: Slot): (r: Snapshot)
    requires Shaped(s)
    ensures Shaped(r) && r.lists == s.lists && r.running == s.running && r.alg == s.alg
    ensures r.ts == s.ts[t := PeriodDoubled(s.ts[t])]
    ensures r.counters == if s.ts[t].PeriodFlexible() == 1 then Counted(s.counters, PerDoubles, 1) else s.counters
  {
    var d := WithRecord(s, t, PeriodDoubled(s.ts[t]));
    if s.ts[t].PeriodFlexible() == 1 then d.(counters := Counted(s.counters, PerDoubles, 1)) else d
  }

  /** Doubling a task keeps every other task consistent. */
  lemma DoublingBut(s: Snapshot, t: Slot)
    requires ConsistentBut(s, t)
    ensures ConsistentBut(Doubling(s, t), t)
  {
    ButRecord(s, t, PeriodDoubled(s.ts[t]));
    ButCounters(WithRecord(s, t, PeriodDoubled(s.ts[t])), t, Counted(s.counters, PerDoubles, 1));
  }

  /** A task whose multiplier is at least one after the doubling fits the doubled-periods queue. */
  lemma DoubledFits(m: seq<bool>, st: TaskState, d: bool, d': bool, runs: bool, alg: Algorithm)
    requires |m| == NUM_OF_QUEUES && Fits(m, Role(st, d), runs, alg)
    requires DoublesFromZero(alg) ==> d'
    ensures Fits(m[Doubled.Index() := true], Role(st, d'), runs, alg)
  {
  }

  /** The doubling of the ADAP-3/4/5/6 loops: the task doubled, then put on the doubled-periods queue. */
  function DoubleStep(s: Snapshot, t: Slot, o: Order): (r: Snapshot)
    requires Shaped(s)
    ensures Shaped(r) && r.running == s.running && r.alg == s.alg
    ensures r.ts == s.ts[t := PeriodDoubled(s.ts[t])]
    ensures r.lists[Queue.Ready.Index()] == s.lists[Queue.Ready.Index()]
  {
    Inserted(Doubling(s, t), Doubled, t, o)
  }

  /** After the doubling, the task is on no q1 queue and fits the doubled-periods queue. */
  lemma DoubledRoleFits(s: Snapshot, t: Slot)
    requires Shaped(s) && t !in s.lists[Doubled.Index()]
    requires DoublesFromZero(s.alg) ==> PeriodDoubled(s.ts[t]).periodMultiplier >= 1
    requires Fits(Memberships(s.lists, t), RoleOf(s.ts[t]), t == s.running, s.alg)
    ensures var d := Doubling(s, t);
      && Unqueued(d.lists, Q1, t)
      && Fits(Memberships(d.lists, t)[Doubled.Index() := true], RoleOf(d.ts[t]), t == d.running, d.alg)
  {
    var d := Doubling(s, t);
    var m := Memberships(s.lists, t);
    PeriodDoubledChanges(s.ts[t]);
    assert RoleOf(d.ts[t]) == Role(s.ts[t].state, PeriodDoubled(s.ts[t]).periodMultiplier >= 1);
    DoubledFits(m, s.ts[t].state, s.ts[t].periodMultiplier >= 1,
                PeriodDoubled(s.ts[t]).periodMultiplier >= 1, t == s.running, s.alg);
    assert Memberships(d.lists, t) == m;
    Q1Free(d.lists, t);
  }

  /** With the others consistent and the task's fit known, the doubling step restores the invariant. */
  lemma DoubleStepFinish(s: Snapshot, t: Slot, o: Order)
    requires Shaped(s) && t != 0 && t !in s.lists[Doubled.Index()]
    requires DoublesFromZero(s.alg) ==> PeriodDoubled(s.ts[t]).periodMultiplier >= 1
    requires Fits(Memberships(s.lists, t), RoleOf(s.ts[t]), t == s.running, s.alg)
    requires ConsistentBut(Doubling(s, t), t)
    ensures Consistent(DoubleStep(s, t, o)) && t in DoubleStep(s, t, o).lists[Doubled.Index()]
  {
    DoubledRoleFits(s, t);
    InsertedFits(Doubling(s, t), Doubled, t, o);
  }

  /** Doubling a task that is not yet on the doubled-periods queue keeps the invariant. */
  lemma DoubleStepKeeps(s: Snapshot, t: Slot, o: Order)
    requires Consistent(s) && t != 0 && t !in s.lists[Doubled.Index()]
    requires DoublesFromZero(s.alg) ==> PeriodDoubled(s.ts[t]).periodMultiplier >= 1
    ensures Consistent(DoubleStep(s, t, o)) && t in DoubleStep(s, t, o).lists[Doubled.Index()]
  {
    MemberFits(s, t);
    ConsistentForAllBut(s, t);
    DoublingBut(s, t);
    DoubleStepFinish(s, t, o);
  }

  /** Under ADAP-3 to ADAP-6 a removable task, whose multiplier is 0, is not on the doubled-periods queue. */
  lemma RemovableUndoubled(s: Snapshot, t: Slot)
    requires Consistent(s) && t != 0 && DoublesFromZero(s.alg) && Removable(s.ts[t])
    ensures t !in s.lists[Doubled.Index()]
  {
    MemberFits(s, t);
  }

  /**
   * Doubling the task get_lowest_priority_active_task picked keeps the
   * invariant, queues the task as doubled and leaves one removable task fewer.
   */
  lemma DoubleLowestKeeps(s: Snapshot, t: Slot, o: Order)
    requires Consistent(s) && t != 0 && DoublesFromZero(s.alg) && Removable(s.ts[t])
    ensures Consistent(DoubleStep(s, t, o)) && t in DoubleStep(s, t, o).lists[Doubled.Index()]
    ensures RemovableCount(DoubleStep(s, t, o).ts, NUM_OF_TASKS) < RemovableCount(s.ts, NUM_OF_TASKS)
  {
    RemovableUndoubled(s, t);
    PeriodDoubledIsNotRemovable(s.ts[t]);
    DoubleStepKeeps(s, t, o);
    UpdateCounts(s.ts, t, PeriodDoubled(s.ts[t]));
  }

  /**
   * The while loop of schedule_adapive_three_algorithm: while the utility is
   * above 100%, the least important removable task has its period doubled
   * and joins the doubled-periods queue in priority order. With no candidate
   * left the loop spins.
   */
  function Adap3Loop(s: Snapshot, util: u16): (o: Outcome)
    requires Consistent(s) && (s.alg == Adap03 || s.alg == Adap04)
    ensures o.Done? ==> Consistent(o.s) && o.s.alg == s.alg && o.s.running == s.running
    ensures util as nat <= MAX_EDF_UTIL ==> o == Done(s)
    ensures o.Done? && util as nat > MAX_EDF_UTIL ==> SetUtility(o.s.ts) as nat <= MAX_EDF_UTIL
    ensures util as nat > MAX_EDF_UTIL && RemovableCount(s.ts, NUM_OF_TASKS) == 0 ==> o == Hung
    decreases RemovableCount(s.ts, NUM_OF_TASKS)
  {
    if util as nat <= MAX_EDF_UTIL then Done(s)
    else
      var t := LowestActive(s.ts);
      LowestIsRemovable(s.ts);
      if t == 0 then Hung
      else
        DoubleLowestKeeps(s, t, Q1Order(Rm));
        var r := DoubleStep(s, t, Q1Order(Rm));
        Adap3Loop(r, SetUtility(r.ts))
  }

  /** The ADAP-3/4 handler: utilities recalculated, the doubling loop, then the EDF test. */
  function Adap3(s: Snapshot): (o: Outcome)
    requires Consistent(s) && (s.alg == Adap03 || s.alg == Adap04)
    ensures o.Done? ==> Consistent(o.s) && o.s.alg == s.alg
    ensures SetUtility(WithUtilities(s.ts)) as nat > MAX_EDF_UTIL && RemovableCount(WithUtilities(s.ts), NUM_OF_TASKS) == 0 ==> o == Hung
  {
    var u := Utilities(s);
    MetricsKeep(s, 0, 0, 0);
    match Adap3Loop(u, SetUtility(u.ts))
    case Hung => Hung
    case Done(r) => Done(EdfPolicy(r))
  }

  /**
   * The while loop of schedule_adapive_five_algorithm: while the stored
   * laxity of the head of the ready queue is below the running task's time
   * left, the least important removable task is doubled and queued, and all
   * laxities are recalculated. With no candidate left the loop spins.
   */
  function Adap5Loop(s: Snapshot, now: u32): (o: Outcome)
    requires Consistent(s) && s.alg == Adap05
    ensures o.Done? ==> Consistent(o.s) && o.s.alg == s.alg && o.s.running == s.running
    ensures o.Done? ==> o.s.ts[Head(o.s)].laxity >= o.s.ts[o.s.running].timeLeft
    ensures s.ts[Head(s)].laxity >= s.ts[s.running].timeLeft ==> o == Done(s)
    ensures s.ts[Head(s)].laxity < s.ts[s.running].timeLeft && RemovableCount(s.ts, NUM_OF_TASKS) == 0 ==> o == Hung
    decreases RemovableCount(s.ts, NUM_OF_TASKS)
  {
    if s.ts[Head(s)].laxity >= s.ts[s.running].timeLeft then Done(s)
    else
      var t := LowestActive(s.ts);
      LowestIsRemovable(s.ts);
      if t == 0 then Hung
      else Adap5Loop(Adap5Next(s, now, t), now)
  }

  /** One pass of the ADAP-5 loop: the doubling of task `t`, then every laxity recalculated at `now`. */
  function Adap5Next(s: Snapshot, now: u32, t: Slot): (r: Snapshot)
    requires Consistent(s) && s.alg == Adap05 && t != 0 && Removable(s.ts[t])
    ensures Consistent(r) && r.alg == s.alg && r.running == s.running
    ensures RemovableCount(r.ts, NUM_OF_TASKS) < RemovableCount(s.ts, NUM_OF_TASKS)
  {
    DoubleLowestKeeps(s, t, Q1Order(Rm));
    var d := DoubleStep(s, t, Q1Order(Rm));
    MetricsKeep(d, 0, now, 0);
    LaxitiesKeepCount(d.ts, now, NUM_OF_TASKS);
    Laxities(d, now)
  }

  /** The ADAP-5 handler: the laxity loop, then the EDF test. */
  function Adap5(s: Snapshot, now: u32): (o: Outcome)
    requires Consistent(s) && s.alg == Adap05
    ensures o.Done? ==> Consistent(o.s) && o.s.alg == s.alg
    ensures s.ts[Head(s)].laxity < s.ts[s.running].timeLeft && RemovableCount(s.ts, NUM_OF_TASKS) == 0 ==> o == Hung
  {
    match Adap5Loop(s, now)
    case Hung => Hung
    case Done(r) => Done(EdfPolicy(r))
  }

  /**
   * The fault schedule_adapive_six_algorithm and schedule_adapive_seven_algorithm
   * inject: the running task's measured time grows by v (U32).
   */
  function Overrun(s: Snapshot, v: u32): (r: Snapshot)
    requires Consistent(s)
    ensures Consistent(r) && r.lists == s.lists && r.running == s.running && r.alg == s.alg
    ensures r.ts == s.ts[s.running := s.ts[s.running].(timeTaken := Wrap32(s.ts[s.running].timeTaken as int + v as int))]
  {
    var rec := s.ts[s.running].(timeTaken := Wrap32(s.ts[s.running].timeTaken as int + v as int));
    OverrunFits(s, rec);
    WithRecord(s, s.running, rec)
  }

  /** A record that differs from the running task's only in its measured time keeps the state consistent. */
  lemma OverrunFits(s: Snapshot, rec: TaskRecord)
    requires Consistent(s) && rec == s.ts[s.running].(timeTaken := rec.timeTaken)
    ensures Consistent(WithRecord(s, s.running, rec))
  {
    var t := s.running;
    if t == 0 {
      ButRecord(s, 0, rec);
    } else {
      ConsistentForAllBut(s, t);
      MemberFits(s, t);
      RecordFits(s, t, rec);
    }
  }

  /**
   * calculate_all_task_utilities followed by calculate_laxity of one task;
   * the utility the former returns is the task set utility of the result.
   */
  function Recalculated(s: Snapshot, first: Slot, now: u32): (r: Snapshot)
    requires Consistent(s)
    ensures Consistent(r) && r.alg == s.alg && r.running == s.running && r.lists == s.lists
    ensures r.ts[first].laxity == Laxity(WithUtilities(s.ts)[first], now)
    ensures SetUtility(r.ts) == SetUtility(WithUtilities(s.ts))
  {
    var u := Utilities(s);
    MetricsKeep(s, 0, now, 0);
    MetricsKeep(u, 0, now, first);
    LaxityKeepsUtility(u, first, now);
    LaxityOf(u, first, now)
  }

  /** The tick at which ADAP-6 and ADAP-7 inject their fault. */
  const FAULT_TIME: u32 := 906
  /** How many passes the ADAP-6 and ADAP-7 loops make at most. */
  const ADAP6_PASSES: nat := 5
  const ADAP7_PASSES: nat := 10

  /**
   * One doubling of the ADAP-6 loop for the picked task. A pick of 0 (no
   * removable task left) doubles the record of slot 0 and queues nothing.
   */
  function DoubleLowest(s: Snapshot, t: Slot): (r: Snapshot)
    requires Consistent(s) && DoublesFromZero(s.alg) && (t != 0 ==> Removable(s.ts[t]))
    ensures Consistent(r) && r.alg == s.alg && r.running == s.running
    ensures r.ts == s.ts[t := PeriodDoubled(s.ts[t])]
    ensures t != 0 ==> t in r.lists[Doubled.Index()]
    ensures t == 0 ==> r.lists == s.lists
  {
    if t == 0 then
      DoublingBut(s, 0);
      Doubling(s, 0)
    else
      DoubleLowestKeeps(s, t, Q1Order(Rm));
      DoubleStep(s, t, Q1Order(Rm))
  }

  /**
   * The while loop of schedule_adapive_six_algorithm: at most five passes,
   * each doubling the least important removable task, recalculating all
   * utilities and the laxity of the head picked before the loop. The loop
   * stops early once the utility is at most 100% and that laxity covers the
   * running task's time left.
   */
  function Adap6Loop(s: Snapshot, now: u32, first: Slot, util: u16, count: nat): (p: Pass)
    requires Consistent(s) && s.alg == Adap06 && count <= ADAP6_PASSES && util == SetUtility(s.ts)
    ensures Shaped(p.s) && p.s.alg == s.alg && p.s.running == s.running
    ensures count <= p.count <= ADAP6_PASSES && p.util == SetUtility(p.s.ts)
    ensures (count == ADAP6_PASSES || (util as nat <= MAX_EDF_UTIL && s.ts[first].laxity >= s.ts[s.running].timeLeft))
              ==> p == Pass(s, util, count)
    decreases ADAP6_PASSES - count, 1
  {
    if (util as nat > MAX_EDF_UTIL || s.ts[first].laxity < s.ts[s.running].timeLeft) && count < ADAP6_PASSES then
      Adap6Pass(s, now, first, count)
    else Pass(s, util, count)
  }

  /** Pass `count` of the ADAP-6 loop, then the rest of the loop. */
  function Adap6Pass(s: Snapshot, now: u32, first: Slot, count: nat): (p: Pass)
    requires Consistent(s) && s.alg == Adap06 && count < ADAP6_PASSES
    ensures Shaped(p.s) && p.s.alg == s.alg && p.s.running == s.running
    ensures count < p.count <= ADAP6_PASSES && p.util == SetUtility(p.s.ts)
    decreases ADAP6_PASSES - count, 0
  {
    var r := Adap6Next(s, now, first);
    Adap6Loop(r, now, first, SetUtility(r.ts), count + 1)
  }

  /** One pass of the ADAP-6 loop: the least important removable task doubled, then utilities and the head's laxity recalculated. */
  function Adap6Next(s: Snapshot, now: u32, first: Slot): (r: Snapshot)
    requires Consistent(s) && s.alg == Adap06
    ensures Consistent(r) && r.alg == s.alg && r.running == s.running
  {
    LowestIsRemovable(s.ts);
    Recalculated(DoubleLowest(s, LowestActive(s.ts)), first, now)
  }

  /** The ADAP-6 loop's exit test holds: utility at most 100%, and the head's laxity covers the running task's time left. */
  predicate Settled(p: Pass, first: Slot)
    requires Shaped(p.s)
  {
    p.util as nat <= MAX_EDF_UTIL && p.s.ts[first].laxity >= p.s.ts[p.s.running].timeLeft
  }

  /**
   * A loop that stops before its fifth pass stops because the utility is at
   * most 100% and the head's laxity covers the running task's time left.
   */
  lemma {:induction false} Adap6LoopSettles(s: Snapshot, now: u32, first: Slot, util: u16, count: nat, p: Pass)
    requires Consistent(s) && s.alg == Adap06 && count <= ADAP6_PASSES && util == SetUtility(s.ts)
    requires p == Adap6Loop(s, now, first, util, count)
    ensures Consistent(p.s)
    ensures p.count < ADAP6_PASSES ==> Settled(p, first)
    decreases ADAP6_PASSES - count, 1
  {
    if (util as nat > MAX_EDF_UTIL || s.ts[first].laxity < s.ts[s.running].timeLeft) && count < ADAP6_PASSES {
      Adap6PassSettles(s, now, first, util, count, p);
    } else {
      Adap6LoopStops(s, now, first, util, count);
    }
  }

  /** The inductive step of Adap6LoopSettles: one pass, then the rest of the loop. */
  lemma {:induction false} Adap6PassSettles(s: Snapshot, now: u32, first: Slot, util: u16, count: nat, p: Pass)
    requires Consistent(s) && s.alg == Adap06 && count < ADAP6_PASSES && util == SetUtility(s.ts)
    requires util as nat > MAX_EDF_UTIL || s.ts[first].laxity < s.ts[s.running].timeLeft
    requires p == Adap6Loop(s, now, first, util, count)
    ensures Consistent(p.s)
    ensures p.count < ADAP6_PASSES ==> Settled(p, first)
    decreases ADAP6_PASSES - count, 0
  {
    var r := Adap6Next(s, now, first);
    Adap6LoopSettles(r, now, first, SetUtility(r.ts), count + 1, p);
  }

  /** A loop whose exit test already holds makes no pass. */
  lemma Adap6LoopStops(s: Snapshot, now: u32, first: Slot, util: u16, count: nat)
    requires Consistent(s) && s.alg == Adap06 && count <= ADAP6_PASSES && util == SetUtility(s.ts)
    requires !((util as nat > MAX_EDF_UTIL || s.ts[first].laxity < s.ts[s.running].timeLeft) && count < ADAP6_PASSES)
    ensures Adap6Loop(s, now, first, util, count) == Pass(s, util, count)
    ensures count < ADAP6_PASSES ==> Settled(Pass(s, util, count), first)
  {
  }

  /**
   * The ADAP-6 handler: the fault at tick 906, utilities and the head's
   * laxity recalculated, the bounded doubling loop, then the EDF test.
   */
  function Adap6(s: Snapshot, now: u32): (r: Snapshot)
    requires Consistent(s) && s.alg == Adap06
    ensures Consistent(r) && r.alg == s.alg
  {
    var f := if now == FAULT_TIME then Overrun(s, 5) else s;
    var first := Head(f);
    var r := Recalculated(f, first, now);
    var p := Adap6Loop(r, now, first, SetUtility(r.ts), 0);
    Adap6LoopSettles(r, now, first, SetUtility(r.ts), 0, p);
    EdfPolicy(p.s)
  }

  /** One pass of the ADAP-7 loop for a non-zero candidate: off the doubled-periods queue, doubled, back on in enhanced-priority order. */
  function Requeued(s: Snapshot, c: Slot): (r: Snapshot)
    requires Shaped(s)
    ensures Shaped(r) && r.running == s.running && r.alg == s.alg
    ensures r.ts == s.ts[c := PeriodDoubled(s.ts[c])]
  {
    Inserted(Doubling(Q1Out(s, c), c), Doubled, c, Q1Order(Adap07))
  }

  /** After leaving the doubled-periods queue and being doubled, the candidate fits that queue again. */
  lemma RequeuedRoleFits(s: Snapshot, c: Slot)
    requires Shaped(s) && s.alg == Adap07
    requires Fits(Memberships(s.lists, c), RoleOf(s.ts[c]), c == s.running, s.alg)
    requires Memberships(Q1Out(s, c).lists, c) == Memberships(s.lists, c)[Doubled.Index() := false]
    ensures var d := Doubling(Q1Out(s, c), c);
      && Unqueued(d.lists, Q1, c)
      && Fits(Memberships(d.lists, c)[Doubled.Index() := true], RoleOf(d.ts[c]), c == d.running, d.alg)
  {
    var d := Doubling(Q1Out(s, c), c);
    var m := Memberships(s.lists, c);
    PeriodDoubledChanges(s.ts[c]);
    assert RoleOf(d.ts[c]) == Role(s.ts[c].state, PeriodDoubled(s.ts[c]).periodMultiplier >= 1);
    assert Memberships(d.lists, c) == m[Doubled.Index() := false];
    UndoubledFits(m, s.ts[c].state, s.ts[c].periodMultiplier >= 1, s.ts[c].periodMultiplier >= 1, c == s.running, s.alg);
    DoubledFits(m[Doubled.Index() := false], s.ts[c].state, s.ts[c].periodMultiplier >= 1,
                PeriodDoubled(s.ts[c]).periodMultiplier >= 1, c == s.running, s.alg);
    Q1Free(d.lists, c);
  }

  /** With the others consistent and the candidate's fit known, requeueing restores the invariant. */
  lemma RequeuedFinish(s: Snapshot, c: Slot)
    requires Shaped(s) && c != 0 && s.alg == Adap07
    requires Fits(Memberships(s.lists, c), RoleOf(s.ts[c]), c == s.running, s.alg)
    requires ConsistentBut(Doubling(Q1Out(s, c), c), c)
    requires Memberships(Q1Out(s, c).lists, c) == Memberships(s.lists, c)[Doubled.Index() := false]
    ensures Consistent(Requeued(s, c)) && c in Requeued(s, c).lists[Doubled.Index()]
  {
    RequeuedRoleFits(s, c);
    InsertedFits(Doubling(Q1Out(s, c), c), Doubled, c, Q1Order(Adap07));
  }

  /** Requeueing a candidate keeps the invariant and leaves it on the doubled-periods queue. */
  lemma RequeuedKeeps(s: Snapshot, c: Slot)
    requires Consistent(s) && c != 0 && s.alg == Adap07
    ensures Consistent(Requeued(s, c)) && c in Requeued(s, c).lists[Doubled.Index()]
  {
    MemberFits(s, c);
    ConsistentForAllBut(s, c);
    Q1OutBut(s, c);
    DoublingBut(Q1Out(s, c), c);
    RequeuedFinish(s, c);
  }

  /**
   * One pass of the ADAP-7 loop on the state whose enhanced priorities were
   * just recalculated, for the candidate get_active_task_priority picked. A
   * candidate of 0 (none left) doubles the record of slot 0 and queues nothing.
   */
  function Adap7Step(s: Snapshot, c: Slot): (r: Snapshot)
    requires Consistent(s) && s.alg == Adap07
    ensures Consistent(r) && r.alg == s.alg && r.running == s.running
    ensures r.ts == s.ts[c := PeriodDoubled(s.ts[c])]
    ensures c != 0 ==> c in r.lists[Doubled.Index()]
    ensures c == 0 ==> r.lists == s.lists
  {
    if c == 0 then
      DoublingBut(s, 0);
      Doubling(s, 0)
    else
      RequeuedKeeps(s, c);
      Requeued(s, c)
  }

  /**
   * The while loop of schedule_adapive_seven_algorithm: at most ten passes
   * while the utility is above 100%, each doubling the active flexible task
   * with the lowest enhanced priority again, whether or not it was doubled
   * before, and recalculating all utilities and the laxity of the head
   * picked before the loop (which the loop does not test).
   */
  function Adap7Loop(s: Snapshot, now: u32, first: Slot, util: u16, count: nat): (p: Pass)
    requires Consistent(s) && s.alg == Adap07 && count <= ADAP7_PASSES && util == SetUtility(s.ts)
    ensures Shaped(p.s) && p.s.alg == s.alg && p.s.running == s.running
    ensures count <= p.count <= ADAP7_PASSES && p.util == SetUtility(p.s.ts)
    ensures p.count < ADAP7_PASSES ==> p.util as nat <= MAX_EDF_UTIL
    ensures count == ADAP7_PASSES || util as nat <= MAX_EDF_UTIL ==> p == Pass(s, util, count)
    decreases ADAP7_PASSES - count, 1
  {
    if util as nat > MAX_EDF_UTIL && count < ADAP7_PASSES then
      Adap7Pass(s, now, first, count)
    else Pass(s, util, count)
  }

  /** Pass `count` of the ADAP-7 loop, then the rest of the loop. */
  function Adap7Pass(s: Snapshot, now: u32, first: Slot, count: nat): (p: Pass)
    requires Consistent(s) && s.alg == Adap07 && count < ADAP7_PASSES
    ensures Shaped(p.s) && p.s.alg == s.alg && p.s.running == s.running
    ensures count < p.count <= ADAP7_PASSES && p.util == SetUtility(p.s.ts)
    ensures p.count < ADAP7_PASSES ==> p.util as nat <= MAX_EDF_UTIL
    decreases ADAP7_PASSES - count, 0
  {
    var r := Adap7Next(s, now, first);
    Adap7Loop(r, now, first, SetUtility(r.ts), count + 1)
  }

  /**
   * One pass of the ADAP-7 loop: enhanced priorities recalculated, the
   * candidate requeued, then utilities and the head's laxity recalculated.
   */
  function Adap7Next(s: Snapshot, now: u32, first: Slot): (r: Snapshot)
    requires Consistent(s) && s.alg == Adap07
    ensures Consistent(r) && r.alg == s.alg && r.running == s.running
  {
    MetricsKeep(s, 0, now, 0);
    Recalculated(Adap7Step(EPriorities(s), ActiveCandidate(s.ts)), first, now)
  }

  /** The ADAP-7 loop keeps the state consistent. */
  lemma {:induction false} Adap7LoopKeeps(s: Snapshot, now: u32, first: Slot, util: u16, count: nat, p: Pass)
    requires Consistent(s) && s.alg == Adap07 && count <= ADAP7_PASSES && util == SetUtility(s.ts)
    requires p == Adap7Loop(s, now, first, util, count)
    ensures Consistent(p.s)
    decreases ADAP7_PASSES - count, 1
  {
    if util as nat > MAX_EDF_UTIL && count < ADAP7_PASSES {
      Adap7PassKeeps(s, now, first, count, p);
    }
  }

  /** The inductive step of Adap7LoopKeeps: one pass, then the rest of the loop. */
  lemma {:induction false} Adap7PassKeeps(s: Snapshot, now: u32, first: Slot, count: nat, p: Pass)
    requires Consistent(s) && s.alg == Adap07 && count < ADAP7_PASSES
    requires p == Adap7Pass(s, now, first, count)
    ensures Consistent(p.s)
    decreases ADAP7_PASSES - count, 0
  {
    var r := Adap7Next(s, now, first);
    Adap7LoopKeeps(r, now, first, SetUtility(r.ts), count + 1, p);
  }

  /**
   * The ADAP-7 handler: at tick 906 the fault of test 57 (+5) or test 60
   * (+100), utilities and the head's laxity recalculated, the bounded
   * doubling loop, then the EDF test.
   */
  function Adap7(s: Snapshot, now: u32, testNum: u8): (r: Snapshot)
    requires Consistent(s) && s.alg == Adap07
    ensures Consistent(r) && r.alg == s.alg
  {
    var f := if now == FAULT_TIME && testNum == 57 then Overrun(s, 5)
             else if now == FAULT_TIME && testNum == 60 then Overrun(s, 100)
             else s;
    var first := Head(f);
    var r := Recalculated(f, first, now);
    var p := Adap7Loop(r, now, first, SetUtility(r.ts), 0);
    Adap7LoopKeeps(r, now, first, SetUtility(r.ts), 0, p);
    EdfPolicy(p.s)
  }

  // ----------------------------------------------------------------------
  // One turn of each loop, as the imperative loops take it

  /** A turn of the ADAP-1/2 loop: with no removable task it spins, otherwise it goes on from the removal. */
  lemma Adap1LoopTurn(s: Snapshot, util: u16)
    requires Consistent(s) && (s.alg == Adap01 || s.alg == Adap02) && util as nat > MAX_EDF_UTIL
    ensures LowestActive(s.ts) == 0 ==> Adap1Loop(s, util) == Hung
    ensures var t := LowestActive(s.ts);
      t != 0 ==> Removable(s.ts[t]) && Adap1Loop(s, util) == Adap1Loop(RemoveStep(s, t), SetUtility(RemoveStep(s, t).ts))
  {
    LowestIsRemovable(s.ts);
  }

  /** A turn of the ADAP-3/4 loop: with no removable task it spins, otherwise it goes on from the doubling. */
  lemma Adap3LoopTurn(s: Snapshot, util: u16)
    requires Consistent(s) && (s.alg == Adap03 || s.alg == Adap04) && util as nat > MAX_EDF_UTIL
    ensures LowestActive(s.ts) == 0 ==> Adap3Loop(s, util) == Hung
    ensures var t := LowestActive(s.ts);
      t != 0 ==>
        && Removable(s.ts[t]) && Consistent(DoubleStep(s, t, Q1Order(Rm)))
        && Adap3Loop(s, util) == Adap3Loop(DoubleStep(s, t, Q1Order(Rm)), SetUtility(DoubleStep(s, t, Q1Order(Rm)).ts))
  {
    var t := LowestActive(s.ts);
    LowestIsRemovable(s.ts);
    if t != 0 {
      DoubleLowestKeeps(s, t, Q1Order(Rm));
    }
  }

  /** A turn of the ADAP-5 loop: with no removable task it spins, otherwise it goes on from the doubling and fresh laxities. */
  lemma Adap5LoopTurn(s: Snapshot, now: u32)
    requires Consistent(s) && s.alg == Adap05 && s.ts[Head(s)].laxity < s.ts[s.running].timeLeft
    ensures LowestActive(s.ts) == 0 ==> Adap5Loop(s, now) == Hung
    ensures var t := LowestActive(s.ts);
      t != 0 ==> Removable(s.ts[t]) && Adap5Loop(s, now) == Adap5Loop(Adap5Next(s, now, t), now)
  {
    LowestIsRemovable(s.ts);
  }

  /** A turn of the ADAP-6 loop, from the doubling of the task picked. */
  lemma Adap6LoopTurn(s: Snapshot, now: u32, first: Slot, util: u16, count: nat)
    requires Consistent(s) && s.alg == Adap06 && count < ADAP6_PASSES && util == SetUtility(s.ts)
    requires util as nat > MAX_EDF_UTIL || s.ts[first].laxity < s.ts[s.running].timeLeft
    ensures var t := LowestActive(s.ts); t != 0 ==> Removable(s.ts[t])
    ensures var r := Adap6Next(s, now, first);
      Adap6Loop(s, now, first, util, count) == Adap6Loop(r, now, first, SetUtility(r.ts), count + 1)
  {
    LowestIsRemovable(s.ts);
  }

  /** A turn of the ADAP-7 loop, from the requeueing of the candidate picked on fresh enhanced priorities. */
  lemma Adap7LoopTurn(s: Snapshot, now: u32, first: Slot, util: u16, count: nat)
    requires Consistent(s) && s.alg == Adap07 && count < ADAP7_PASSES && util == SetUtility(s.ts)
    requires util as nat > MAX_EDF_UTIL
    ensures Consistent(EPriorities(s))
    ensures var r := Adap7Next(s, now, first);
      Adap7Loop(s, now, first, util, count) == Adap7Loop(r, now, first, SetUtility(r.ts), count + 1)
  {
    MetricsKeep(s, 0, now, 0);
  }
}

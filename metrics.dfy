// The metric calculators of scheduler.c as functions of a task record:
// laxity, the MUF urgency word, the enhanced priority byte, task utility and
// the task-set utility sums, the candidate tests of the overload handlers,
// and what doubling and halving a period do to a record.

module Metrics {
  import opened CTypes
  import opened Task
  import Utils

  /** `MAX_EDF_UTIL`: a task set utility of 1000 permille is full load. */
  const MAX_EDF_UTIL: nat := 1000

  // ----------------------------------------------------------------------
  // Laxity

  /** The states whose laxity and MUF urgency are recalculated. */
  predicate LaxityState(s: TaskState)
  {
    s == Ready || s == Run || s == Skipped || s == Preempted
  }

  /**
   * calculate_laxity: the slack `abs_dline - (now + time_left)`, clamped at
   * 0; the sum `now + time_left` is taken in U32.
   */
  function Laxity(r: TaskRecord, now: u32): (l: u32)
    ensures l > 0 <==> r.absDline > Wrap32(now as int + r.timeLeft as int)
    ensures l > 0 ==> l + Wrap32(now as int + r.timeLeft as int) == r.absDline
  {
    var finish := Wrap32(now as int + r.timeLeft as int);
    if r.absDline > finish then r.absDline - finish else 0
  }

  /** Without wrap-around, laxity is the deadline's slack after the remaining work, or 0. */
  lemma LaxityIsSlack(r: TaskRecord, now: u32)
    requires now as int + r.timeLeft as int < TWO_32
    ensures Laxity(r, now) == if r.absDline > now + r.timeLeft then r.absDline - now - r.timeLeft else 0
    ensures Laxity(r, now) <= r.absDline
  {
  }

  /** Recalculating a laxity twice at the same time changes nothing further. */
  lemma LaxityIdempotent(r: TaskRecord, now: u32)
    ensures Laxity(r.(laxity := Laxity(r, now)), now) == Laxity(r, now)
  {
  }

  /** calculate_all_laxities: slots 1..7 in a laxity state get a fresh laxity. */
  function WithLaxities(ts: seq<TaskRecord>, now: u32): (r: seq<TaskRecord>)
    requires |ts| == NUM_OF_TASKS
    ensures |r| == NUM_OF_TASKS
  {
    seq(NUM_OF_TASKS, i requires 0 <= i < NUM_OF_TASKS =>
      if 1 <= i && LaxityState(ts[i].state) then ts[i].(laxity := Laxity(ts[i], now)) else ts[i])
  }

  /** Recalculating laxities touches no field but `laxity`, and only of slots 1..7 in a laxity state. */
  lemma WithLaxitiesTouchesOnlyLaxity(ts: seq<TaskRecord>, now: u32, i: Slot)
    requires |ts| == NUM_OF_TASKS
    ensures WithLaxities(ts, now)[i].(laxity := 0) == ts[i].(laxity := 0)
    ensures i == 0 || !LaxityState(ts[i].state) ==> WithLaxities(ts, now)[i] == ts[i]
    ensures i != 0 && LaxityState(ts[i].state) ==> WithLaxities(ts, now)[i].laxity == Laxity(ts[i], now)
  {
  }

  // ----------------------------------------------------------------------
  // MUF urgency (Stewart and Khosla's Maximum Urgency First)

  const CRITICAL_BIT: nat := 0x8000_0000
  /** 2^27: the laxity field of the urgency word is 27 bits wide. */
  const LAXITY_RANGE: nat := 0x0800_0000

  /**
   * calculate_muf_urgency: bit 31 is set for a critical task (MUF_CRITICAL
   * == 1), bits 4..30 hold the low 27 bits of the inverted laxity and bits
   * 0..3 the low 4 bits of the priority. The three fields do not overlap, so
   * the bitwise OR of the source is their sum.
   */
  function Urgency(r: TaskRecord): (u: u32)
  {
    (if r.MufCritical() == 1 then CRITICAL_BIT else 0)
    + (LAXITY_RANGE - 1 - r.laxity % LAXITY_RANGE) * 16
    + r.priority % 16
  }

  /** The urgency word decodes back into its three fields. */
  lemma UrgencyFields(r: TaskRecord)
    ensures Urgency(r) / CRITICAL_BIT == if r.MufCritical() == 1 then 1 else 0
    ensures Urgency(r) % CRITICAL_BIT / 16 == LAXITY_RANGE - 1 - r.laxity % LAXITY_RANGE
    ensures Urgency(r) % 16 == r.priority % 16
  {
    var c := if r.MufCritical() == 1 then 1 else 0;
    var m := LAXITY_RANGE - 1 - r.laxity % LAXITY_RANGE;
    var p := r.priority % 16;
    assert Urgency(r) == c * CRITICAL_BIT + (m * 16 + p);
    assert 0 <= m * 16 + p < CRITICAL_BIT;
  }

  /** A critical task is more urgent than any task outside the critical set. */
  lemma CriticalIsMoreUrgent(a: TaskRecord, b: TaskRecord)
    requires a.MufCritical() == 1 && b.MufCritical() != 1
    ensures Urgency(a) > Urgency(b)
  {
  }

  /**
   * Within the same criticality and user priority, less laxity (in the 27
   * bits the word keeps) means more urgency.
   */
  lemma LessLaxityIsMoreUrgent(a: TaskRecord, b: TaskRecord)
    requires (a.MufCritical() == 1) == (b.MufCritical() == 1) && a.priority % 16 == b.priority % 16
    requires a.laxity % LAXITY_RANGE < b.laxity % LAXITY_RANGE
    ensures Urgency(a) > Urgency(b)
  {
  }

  /** calculate_all_muf_urgencies: slots 1..7 in a laxity state get a fresh MUF_URGENCY (spare_4). */
  function WithUrgencies(ts: seq<TaskRecord>): (r: seq<TaskRecord>)
    requires |ts| == NUM_OF_TASKS
    ensures |r| == NUM_OF_TASKS
  {
    seq(NUM_OF_TASKS, i requires 0 <= i < NUM_OF_TASKS =>
      if 1 <= i && LaxityState(ts[i].state) then ts[i].WithMufUrgency(Urgency(ts[i])) else ts[i])
  }

  /** Recalculating urgencies touches no field but `spare_4`, and only of slots 1..7 in a laxity state. */
  lemma WithUrgenciesTouchesOnlySpare4(ts: seq<TaskRecord>, i: Slot)
    requires |ts| == NUM_OF_TASKS
    ensures WithUrgencies(ts)[i].(spare4 := 0) == ts[i].(spare4 := 0)
    ensures i == 0 || !LaxityState(ts[i].state) ==> WithUrgencies(ts)[i] == ts[i]
    ensures i != 0 && LaxityState(ts[i].state) ==> WithUrgencies(ts)[i].MufUrgency() == Urgency(ts[i])
  {
  }

  // ----------------------------------------------------------------------
  // Enhanced priority (ADAP-7)

  /**
   * calculate_active_task_priority: the high nibble holds the low 4 bits of
   * the period multiplier, the low nibble the inverted low 4 bits of the
   * priority (priority 1 is the most important).
   */
  function EPriority(r: TaskRecord): (e: u8)
  {
    (r.periodMultiplier % 16) * 16 + (15 - r.priority % 16)
  }

  /** The enhanced priority byte decodes back into its two nibbles. */
  lemma EPriorityFields(r: TaskRecord)
    ensures EPriority(r) / 16 == r.periodMultiplier % 16
    ensures EPriority(r) % 16 == 15 - r.priority % 16
  {
  }

  /**
   * Ordering of enhanced priorities: a task doubled more often (within the 4
   * bits kept) ranks higher whatever its priority; at the same doubling
   * count the more important task (smaller priority number) ranks higher.
   */
  lemma EPriorityOrder(a: TaskRecord, b: TaskRecord)
    ensures a.periodMultiplier % 16 > b.periodMultiplier % 16 ==> EPriority(a) > EPriority(b)
    ensures a.periodMultiplier % 16 == b.periodMultiplier % 16 && a.priority % 16 < b.priority % 16
            ==> EPriority(a) > EPriority(b)
  {
  }

  /** The writes of calculate_active_task_priority on slots 1..7, as get_active_task_priority makes them. */
  function WithEPriorities(ts: seq<TaskRecord>): (r: seq<TaskRecord>)
    requires |ts| == NUM_OF_TASKS
    ensures |r| == NUM_OF_TASKS
  {
    seq(NUM_OF_TASKS, i requires 0 <= i < NUM_OF_TASKS =>
      if 1 <= i then ts[i].(ePriority := EPriority(ts[i])) else ts[i])
  }

  /** Recalculating enhanced priorities touches no field but `e_priority`, and never slot 0. */
  lemma WithEPrioritiesTouchesOnlyEPriority(ts: seq<TaskRecord>, i: Slot)
    requires |ts| == NUM_OF_TASKS
    ensures WithEPriorities(ts)[i].(ePriority := 0) == ts[i].(ePriority := 0)
    ensures i == 0 ==> WithEPriorities(ts)[i] == ts[i]
    ensures i != 0 ==> WithEPriorities(ts)[i].ePriority == EPriority(ts[i])
  {
  }

  // ----------------------------------------------------------------------
  // Utility

  /** The states whose utility counts towards the task set. */
  predicate UtilityState(s: TaskState)
  {
    s == Ready || s == Run || s == Skipped || s == Idle || s == Preempted
  }

  /**
   * calculate_task_utility: `c_duration * 1000` (U32) divided by the period
   * with UTL_divide, truncated to U16.
   */
  function TaskUtility(r: TaskRecord): (u: u16)
  {
    Wrap16(Utils.DivideSpec(Wrap32(r.cDuration as int * 1000), r.period, Utils.DivResult(0, 0)).quotient)
  }

  /** Task utility is the permille share of the period the measured duration needs. */
  lemma TaskUtilityValue(r: TaskRecord)
    ensures r.period == 0 ==> TaskUtility(r) == 0
    ensures 0 < r.period <= r.cDuration as int * 1000 < TWO_32 ==>
              TaskUtility(r) == Wrap16(r.cDuration as int * 1000 / r.period as int)
    ensures 0 < r.period && r.cDuration as int * 1000 < r.period ==> TaskUtility(r) == 1
  {
  }

  /**
   * What a task adds to the task set utility: a flexible task's utility is
   * shifted right by its period multiplier.
   */
  function Contribution(r: TaskRecord, util: u16): (c: nat)
    ensures c <= util
    ensures r.PeriodFlexible() != 1 || r.periodMultiplier == 0 ==> c == util
  {
    if r.PeriodFlexible() == 1 then Shr(util, r.periodMultiplier) else util
  }

  /** Sum of the stored contributions of slots 1..n-1 in a utility state. */
  function UtilitySum(ts: seq<TaskRecord>, n: nat): nat
    requires |ts| == NUM_OF_TASKS && n <= NUM_OF_TASKS
  {
    if n <= 1 then 0
    else UtilitySum(ts, n - 1) + (if UtilityState(ts[n - 1].state) then Contribution(ts[n - 1], ts[n - 1].taskUtil) else 0)
  }

  /**
   * get_task_set_utility: the stored contributions summed in U32 and returned
   * as U16, which is the sum taken modulo 2^16.
   */
  function SetUtility(ts: seq<TaskRecord>): (u: u16)
    requires |ts| == NUM_OF_TASKS
  {
    Wrap16(UtilitySum(ts, NUM_OF_TASKS))
  }

  /** calculate_all_task_utilities' writes: slots 1..7 in a utility state get a fresh `task_util`. */
  function WithUtilities(ts: seq<TaskRecord>): (r: seq<TaskRecord>)
    requires |ts| == NUM_OF_TASKS
    ensures |r| == NUM_OF_TASKS
  {
    seq(NUM_OF_TASKS, i requires 0 <= i < NUM_OF_TASKS =>
      if 1 <= i && UtilityState(ts[i].state) then ts[i].(taskUtil := TaskUtility(ts[i])) else ts[i])
  }

  /** Recalculated utilities depend only on fields the recalculation does not write. */
  lemma WithUtilitiesIdempotent(ts: seq<TaskRecord>)
    requires |ts| == NUM_OF_TASKS
    ensures WithUtilities(WithUtilities(ts)) == WithUtilities(ts)
  {
  }

  /** Recalculating utilities touches no field but `task_util`. */
  lemma WithUtilitiesTouchesOnlyUtil(ts: seq<TaskRecord>, i: Slot)
    requires |ts| == NUM_OF_TASKS
    ensures WithUtilities(ts)[i].(taskUtil := 0) == ts[i].(taskUtil := 0)
  {
  }

  /** Truncating to 32 bits and then to 16 is truncating to 16. */
  lemma Wrap16Of32(x: nat)
    ensures Wrap16(Wrap32(x)) == Wrap16(x)
  {
    var q := x / TWO_32;
    assert q * TWO_32 == (q * TWO_16) * TWO_16;
    Utils.ModMultiple(Wrap32(x), q * TWO_16, TWO_16);
  }

  // ----------------------------------------------------------------------
  // Candidates of the overload handlers

  /**
   * A task get_lowest_priority_active_task may pick: active, never doubled,
   * flexible and with a priority above 0 (the loop starts from 0 and compares
   * strictly).
   */
  predicate Removable(r: TaskRecord)
  {
    UtilityState(r.state) && r.periodMultiplier == 0 && r.PeriodFlexible() == 1 && r.priority > 0
  }

  /** The states get_active_task_priority considers. */
  predicate DoublingState(s: TaskState)
  {
    s == Ready || s == Run || s == Idle || s == Preempted
  }

  /**
   * A task get_active_task_priority may pick: active, with any non-zero
   * PERIOD_FLEXIBLE, and an enhanced priority below the loop's start 0xFF.
   */
  predicate Doublable(r: TaskRecord)
  {
    DoublingState(r.state) && r.PeriodFlexible() != 0 && r.ePriority < 0xFF
  }

  /** How many of slots 1..n-1 hold a removable task. */
  function RemovableCount(ts: seq<TaskRecord>, n: nat): (c: nat)
    requires |ts| == NUM_OF_TASKS && n <= NUM_OF_TASKS
    ensures c <= n
  {
    if n <= 1 then 0 else RemovableCount(ts, n - 1) + (if Removable(ts[n - 1]) then 1 else 0)
  }

  /** The count is zero exactly when no slot 1..n-1 holds a removable task. */
  lemma {:induction false} RemovableCountZero(ts: seq<TaskRecord>, n: nat)
    requires |ts| == NUM_OF_TASKS && n <= NUM_OF_TASKS
    ensures RemovableCount(ts, n) == 0 <==> forall i :: 1 <= i < n ==> !Removable(ts[i])
  {
    if n > 1 {
      RemovableCountZero(ts, n - 1);
    }
  }

  /**
   * When one slot stops being removable and no other slot changes its
   * removability, the count drops.
   */
  lemma {:induction false} RemovableCountDrops(ts: seq<TaskRecord>, ts': seq<TaskRecord>, t: Slot, n: nat)
    requires |ts| == NUM_OF_TASKS && |ts'| == NUM_OF_TASKS && n <= NUM_OF_TASKS
    requires forall i :: 1 <= i < NUM_OF_TASKS && i != t ==> Removable(ts'[i]) == Removable(ts[i])
    requires Removable(ts[t]) && !Removable(ts'[t])
    ensures 1 <= t < n ==> RemovableCount(ts', n) < RemovableCount(ts, n)
    ensures !(1 <= t < n) ==> RemovableCount(ts', n) == RemovableCount(ts, n)
  {
    if n > 1 {
      RemovableCountDrops(ts, ts', t, n - 1);
    }
  }

  /**
   * The scan of get_lowest_priority_active_task over slots 1..n-1: the slot
   * chosen so far and the priority it carries (0 and 0 before any). A slot
   * replaces the choice only with a strictly larger priority.
   */
  function LowestUpTo(ts: seq<TaskRecord>, n: nat): (c: (Slot, u8))
    requires |ts| == NUM_OF_TASKS && 1 <= n <= NUM_OF_TASKS
    ensures c.0 < n
    ensures c.0 == 0 ==> c.1 == 0
    ensures c.0 != 0 ==> Removable(ts[c.0]) && c.1 == ts[c.0].priority
  {
    if n == 1 then (0, 0)
    else
      var c := LowestUpTo(ts, n - 1);
      if Removable(ts[n - 1]) && ts[n - 1].priority > c.1 then (n - 1, ts[n - 1].priority) else c
  }

  /** get_lowest_priority_active_task: the result of the scan over slots 1..7. */
  function LowestActive(ts: seq<TaskRecord>): (t: Slot)
    requires |ts| == NUM_OF_TASKS
  {
    LowestUpTo(ts, NUM_OF_TASKS).0
  }

  /**
   * The scan picks the removable task of the largest priority number (the
   * least important), the first slot among equals, and 0 when no slot holds
   * a removable task.
   */
  lemma {:induction false} LowestUpToPicks(ts: seq<TaskRecord>, n: nat)
    requires |ts| == NUM_OF_TASKS && 1 <= n <= NUM_OF_TASKS
    ensures var c := LowestUpTo(ts, n);
      && (c.0 == 0 <==> forall i :: 1 <= i < n ==> !Removable(ts[i]))
      && (forall i :: 1 <= i < n && Removable(ts[i]) ==> ts[i].priority <= c.1)
      && (forall i :: 1 <= i < c.0 && Removable(ts[i]) ==> ts[i].priority < c.1)
  {
    if n > 1 {
      LowestUpToPicks(ts, n - 1);
    }
  }

  lemma LowestActivePicks(ts: seq<TaskRecord>)
    requires |ts| == NUM_OF_TASKS
    ensures var t := LowestActive(ts);
      && (t == 0 <==> forall i :: 1 <= i < NUM_OF_TASKS ==> !Removable(ts[i]))
      && (t != 0 ==> Removable(ts[t]))
      && (forall i :: 1 <= i < NUM_OF_TASKS && Removable(ts[i]) ==> ts[i].priority <= ts[t].priority)
      && (forall i :: 1 <= i < t && Removable(ts[i]) ==> ts[i].priority < ts[t].priority)
  {
    LowestUpToPicks(ts, NUM_OF_TASKS);
  }

  /**
   * The scan of get_active_task_priority over slots 1..n-1 of the records
   * after their enhanced priorities are written: the slot chosen so far and
   * the enhanced priority it carries (0 and 0xFF before any). A slot replaces
   * the choice only with a strictly smaller enhanced priority.
   */
  function ActiveUpTo(ts: seq<TaskRecord>, n: nat): (c: (Slot, u8))
    requires |ts| == NUM_OF_TASKS && 1 <= n <= NUM_OF_TASKS
    ensures c.0 < n
    ensures c.0 == 0 ==> c.1 == 0xFF
    ensures c.0 != 0 ==> Doublable(ts[c.0]) && c.1 == ts[c.0].ePriority
  {
    if n == 1 then (0, 0xFF)
    else
      var c := ActiveUpTo(ts, n - 1);
      if DoublingState(ts[n - 1].state) && ts[n - 1].PeriodFlexible() != 0 && ts[n - 1].ePriority < c.1
      then (n - 1, ts[n - 1].ePriority) else c
  }

  /** get_active_task_priority: enhanced priorities written, then the scan over slots 1..7. */
  function ActiveCandidate(ts: seq<TaskRecord>): (t: Slot)
    requires |ts| == NUM_OF_TASKS
  {
    ActiveUpTo(WithEPriorities(ts), NUM_OF_TASKS).0
  }

  /**
   * The scan picks the doublable task of the smallest enhanced priority, the
   * first slot among equals, and 0 when no slot holds a doublable task.
   */
  lemma {:induction false} ActiveUpToPicks(ts: seq<TaskRecord>, n: nat)
    requires |ts| == NUM_OF_TASKS && 1 <= n <= NUM_OF_TASKS
    ensures var c := ActiveUpTo(ts, n);
      && (c.0 == 0 <==> forall i :: 1 <= i < n ==> !Doublable(ts[i]))
      && (forall i :: 1 <= i < n && Doublable(ts[i]) ==> c.1 <= ts[i].ePriority)
      && (forall i :: 1 <= i < c.0 && Doublable(ts[i]) ==> c.1 < ts[i].ePriority)
  {
    if n > 1 {
      ActiveUpToPicks(ts, n - 1);
    }
  }

  lemma ActiveCandidatePicks(ts: seq<TaskRecord>)
    requires |ts| == NUM_OF_TASKS
    ensures var e := WithEPriorities(ts); var t := ActiveCandidate(ts);
      && (t == 0 <==> forall i :: 1 <= i < NUM_OF_TASKS ==> !Doublable(e[i]))
      && (t != 0 ==> Doublable(e[t]))
      && (forall i :: 1 <= i < NUM_OF_TASKS && Doublable(e[i]) ==> e[t].ePriority <= e[i].ePriority)
      && (forall i :: 1 <= i < t && Doublable(e[i]) ==> e[t].ePriority < e[i].ePriority)
  {
    ActiveUpToPicks(WithEPriorities(ts), NUM_OF_TASKS);
  }

  // ----------------------------------------------------------------------
  // Period doubling and halving

  /** Tasks whose deadline moves when their period is doubled. */
  predicate DeadlineState(s: TaskState)
  {
    s == Ready || s == Run || s == Preempted
  }

  /**
   * double_task_period on the record: only a flexible task changes. Its
   * doubling count and multiplier go up by one (U32, U8); a ready, running
   * or pre-empted task also has its deadline pushed back by
   * `rel_dline * new multiplier` (U32).
   */
  function PeriodDoubled(r: TaskRecord): (d: TaskRecord)
  {
    if r.PeriodFlexible() != 1 then r
    else
      var m := Wrap8(r.periodMultiplier as int + 1);
      var counted := r.(perDoubles := Wrap32(r.perDoubles as int + 1), periodMultiplier := m);
      if DeadlineState(r.state) then counted.(absDline := Wrap32(r.absDline as int + r.relDline as int * m))
      else counted
  }

  /** half_task_period on the record: a positive multiplier goes down by one; nothing else changes. */
  function PeriodHalved(r: TaskRecord): (h: TaskRecord)
  {
    if r.periodMultiplier > 0 then r.(periodMultiplier := r.periodMultiplier - 1) else r
  }

  /** Doubling acts only on flexible tasks, and then only on the count, multiplier and deadline. */
  lemma PeriodDoubledChanges(r: TaskRecord)
    ensures r.PeriodFlexible() != 1 ==> PeriodDoubled(r) == r
    ensures r.PeriodFlexible() == 1 ==>
              PeriodDoubled(r).periodMultiplier == Wrap8(r.periodMultiplier as int + 1)
              && PeriodDoubled(r).perDoubles == Wrap32(r.perDoubles as int + 1)
    ensures r.PeriodFlexible() == 1 && DeadlineState(r.state) ==>
              PeriodDoubled(r).absDline == Wrap32(r.absDline as int + r.relDline as int * PeriodDoubled(r).periodMultiplier)
    ensures !DeadlineState(r.state) ==> PeriodDoubled(r).absDline == r.absDline
    ensures PeriodDoubled(r).(perDoubles := 0, periodMultiplier := 0, absDline := 0) == r.(perDoubles := 0, periodMultiplier := 0, absDline := 0)
  {
  }

  /** Halving never changes the deadline, and undoes the multiplier step of a doubling that did not wrap. */
  lemma PeriodHalvedUndoesDoubled(r: TaskRecord)
    ensures PeriodHalved(r).absDline == r.absDline
    ensures PeriodHalved(r).(periodMultiplier := 0) == r.(periodMultiplier := 0)
    ensures r.PeriodFlexible() == 1 && r.periodMultiplier < 255 ==>
              PeriodHalved(PeriodDoubled(r)).periodMultiplier == r.periodMultiplier
  {
  }

  /** A task picked by get_lowest_priority_active_task is no longer removable once doubled. */
  lemma PeriodDoubledIsNotRemovable(r: TaskRecord)
    requires Removable(r)
    ensures !Removable(PeriodDoubled(r)) && PeriodDoubled(r).periodMultiplier == 1
  {
  }
}

// The task switches of scheduler.c (preempt_task, dispatch_next_task,
// skip_first_task) and the per-policy decisions of process_ready_tasks, as
// functions from one snapshot of the scheduler object to the next. Every
// switch keeps the scheduler invariant.

module SchedPolicy {
  import opened CTypes
  import opened Task
  import opened TestReport
  import opened Queues
  import opened Metrics
  import opened SchedState
  import opened SchedOps

  // ----------------------------------------------------------------------
  // Read-only queries of the ready queue

  /** q_first_id on the ready queue: its head, or slot 0 when it is empty. */
  function Head(s: Snapshot): (t: Slot)
    requires Shaped(s)
    ensures s.lists[Queue.Ready.Index()] != [] ==> t == s.lists[Queue.Ready.Index()][0]
    ensures s.lists[Queue.Ready.Index()] == [] ==> t == 0
  {
    if s.lists[Queue.Ready.Index()] == [] then 0 else s.lists[Queue.Ready.Index()][0]
  }

  /**
   * q_second_id on the ready queue: the head's successor, read through slot
   * 0's null link when the queue is empty.
   */
  function Second(s: Snapshot): (t: Slot)
    requires Shaped(s)
    ensures |s.lists[Queue.Ready.Index()]| >= 2 ==> t == s.lists[Queue.Ready.Index()][1]
    ensures |s.lists[Queue.Ready.Index()]| < 2 ==> t == 0
  {
    if |s.lists[Queue.Ready.Index()]| >= 2 then s.lists[Queue.Ready.Index()][1] else 0
  }

  // ----------------------------------------------------------------------
  // preempt_task

  /** The record of a pre-empted task: state PREMPT and its pre-emption count up by one (U8). */
  function PreemptedRecord(r: TaskRecord): (p: TaskRecord)
    ensures p.state == Preempted && p.preCount == Wrap8(r.preCount as int + 1)
    ensures p.(state := r.state, preCount := r.preCount) == r
  {
    r.(state := Preempted, preCount := Wrap8(r.preCount as int + 1))
  }

  /** The running task's record and the report updated, and nothing running, before it is queued. */
  function Unseated(s: Snapshot): (r: Snapshot)
    requires Shaped(s) && s.running != 0
    ensures Shaped(r) && r.lists == s.lists && r.running == 0 && r.alg == s.alg
    ensures r.ts == s.ts[s.running := PreemptedRecord(s.ts[s.running])]
    ensures r.counters == Counted(s.counters, Preempts, 1)
  {
    WithRecord(s, s.running, PreemptedRecord(s.ts[s.running])).(counters := Counted(s.counters, Preempts, 1), running := 0)
  }

  /**
   * preempt_task on the running task: it becomes PREMPT, its count and the
   * report's pre-emption count go up, it joins the ready queue in the
   * policy's order (and the lst queue by laxity under ADAP-5/6), and nothing
   * runs afterwards.
   */
  function Preempt(s: Snapshot): (r: Snapshot)
    requires Shaped(s) && s.running != 0
    ensures Shaped(r) && r.running == 0 && r.alg == s.alg
    ensures r.ts == s.ts[s.running := PreemptedRecord(s.ts[s.running])]
    ensures r.counters == Counted(s.counters, Preempts, 1)
  {
    var t := s.running;
    var s2 := Inserted(Unseated(s), Queue.Ready, t, Q0Order(s.alg));
    if MirrorsLst(s.alg) then Inserted(s2, Lst, t, Q2Order(Llf)) else s2
  }

  lemma RunToPreempted(m: seq<bool>, d: bool, alg: Algorithm)
    requires |m| == NUM_OF_QUEUES && Fits(m, Role(Run, d), true, alg)
    ensures MirrorsLst(alg) ==> !m[Lst.Index()]
    ensures !MirrorsLst(alg) ==> Fits(m[Queue.Ready.Index() := true], Role(Preempted, d), false, alg)
    ensures MirrorsLst(alg) ==> Fits(m[Queue.Ready.Index() := true][Lst.Index() := true], Role(Preempted, d), false, alg)
  {
  }

  /** Unseating the running task keeps every other task consistent. */
  lemma UnseatedBut(s: Snapshot)
    requires Consistent(s) && s.running != 0
    ensures var t := s.running;
      && ConsistentBut(Unseated(s), t)
      && Fits(Memberships(s.lists, t), Role(Run, s.ts[t].periodMultiplier >= 1), true, s.alg)
  {
    var t := s.running;
    var s1 := WithRecord(s, t, PreemptedRecord(s.ts[t]));
    MemberFits(s, t);
    ConsistentForAllBut(s, t);
    ButRecord(s, t, PreemptedRecord(s.ts[t]));
    ButCounters(s1, t, Counted(s.counters, Preempts, 1));
    ButRunning(s1.(counters := Counted(s.counters, Preempts, 1)), t, 0);
  }

  /** The unseated task is on no q0 queue and fits the ready queue (and lst under ADAP-5/6). */
  lemma UnseatedFits(s: Snapshot)
    requires Shaped(s) && s.running != 0
    requires Fits(Memberships(s.lists, s.running), Role(Run, s.ts[s.running].periodMultiplier >= 1), true, s.alg)
    ensures var t := s.running; var u := Unseated(s);
      && Unqueued(u.lists, Q0, t) && (MirrorsLst(s.alg) ==> !Memberships(u.lists, t)[Lst.Index()])
      && (!MirrorsLst(s.alg) ==> Fits(Memberships(u.lists, t)[Queue.Ready.Index() := true], RoleOf(u.ts[t]), t == u.running, u.alg))
      && (MirrorsLst(s.alg) ==>
            Fits(Memberships(u.lists, t)[Queue.Ready.Index() := true][Lst.Index() := true], RoleOf(u.ts[t]), t == u.running, u.alg))
  {
    var t := s.running;
    RunToPreempted(Memberships(s.lists, t), s.ts[t].periodMultiplier >= 1, s.alg);
    Q0Free(s.lists, t);
  }

  /** Under ADAP-5/6 the pre-empted task, once in the ready queue, is only missing from the lst queue. */
  lemma PreemptReadyBut(s: Snapshot)
    requires Consistent(s) && s.running != 0 && MirrorsLst(s.alg)
    ensures var t := s.running; var r := Inserted(Unseated(s), Queue.Ready, t, Q0Order(s.alg));
      && ConsistentBut(r, t) && Unqueued(r.lists, Q2, t)
      && Fits(Memberships(r.lists, t)[Lst.Index() := true], RoleOf(r.ts[t]), t == r.running, r.alg)
  {
    var t := s.running;
    var u := Unseated(s);
    UnseatedBut(s);
    UnseatedFits(s);
    InsertedBut(u, Queue.Ready, t, Q0Order(s.alg));
    InsertedFitsAgain(u, Queue.Ready, t, Q0Order(s.alg), Lst);
    Q2Free(Inserted(u, Queue.Ready, t, Q0Order(s.alg)).lists, t);
  }

  lemma PreemptKeeps(s: Snapshot)
    requires Consistent(s) && s.running != 0
    ensures Consistent(Preempt(s))
  {
    var t := s.running;
    if MirrorsLst(s.alg) {
      PreemptReadyBut(s);
      InsertedFits(Inserted(Unseated(s), Queue.Ready, t, Q0Order(s.alg)), Lst, t, Q2Order(Llf));
    } else {
      UnseatedBut(s);
      UnseatedFits(s);
      InsertedFits(Unseated(s), Queue.Ready, t, Q0Order(s.alg));
    }
  }

  /** Where preempt_task puts the running task in the ready queue: at the walk's position of the policy's order. */
  lemma PreemptPlaces(s: Snapshot)
    requires Shaped(s) && s.running != 0
    ensures var l := s.lists[Queue.Ready.Index()]; var t := s.running; var u := Unseated(s);
      var k := InsertIndex(Q0Order(s.alg), u.ts, l, u.ts[t]);
      Preempt(s).lists[Queue.Ready.Index()] == l[..k] + [t] + l[k..]
  {
  }

  // ----------------------------------------------------------------------
  // dispatch_next_task

  /** The record of a dispatched task: state RUN and NOT_SKIPPED down by one when positive. */
  function DispatchedRecord(r: TaskRecord): (d: TaskRecord)
    ensures d.state == Run
    ensures d.NotSkipped() == if r.NotSkipped() > 0 then r.NotSkipped() - 1 else 0
    ensures d.(state := r.state, spare2 := r.spare2) == r
  {
    r.(state := Run).WithSpare2(if r.NotSkipped() > 0 then r.NotSkipped() - 1 else r.NotSkipped())
  }

  /** Under ADAP-5/6 the head of the ready queue is also in the lst queue. */
  lemma HeadMirrored(s: Snapshot)
    requires Consistent(s) && MirrorsLst(s.alg) && s.lists[Queue.Ready.Index()] != []
    ensures s.lists[Queue.Ready.Index()][0] in s.lists[Lst.Index()]
  {
    MemberFits(s, s.lists[Queue.Ready.Index()][0]);
  }

  /**
   * dispatch_next_task with nothing running: the head of the ready queue
   * leaves it (and the lst queue under ADAP-5/6), becomes RUN and has its
   * NOT_SKIPPED count lowered. With an empty ready queue q_extract_first
   * yields 0 and nothing changes: q2_extract of slot 0 rewrites the null
   * links of the then empty lst queue (MirrorEmpty).
   */
  function Dispatch(s: Snapshot): (r: Snapshot)
    requires Consistent(s) && s.running == 0
    ensures Shaped(r) && r.alg == s.alg && r.counters == s.counters
    ensures s.lists[Queue.Ready.Index()] == [] ==> r == s
    ensures s.lists[Queue.Ready.Index()] != [] ==>
              var t := s.lists[Queue.Ready.Index()][0];
              && r.running == t && r.lists[Queue.Ready.Index()] == s.lists[Queue.Ready.Index()][1..]
              && r.ts == s.ts[t := DispatchedRecord(s.ts[t])]
    ensures forall g: Queue :: g != Queue.Ready && g != Lst ==> r.lists[g.Index()] == s.lists[g.Index()]
  {
    if s.lists[Queue.Ready.Index()] == [] then s
    else
      var t := s.lists[Queue.Ready.Index()][0];
      var s1 := FirstOut(s, Queue.Ready).(running := t);
      var s2 := if MirrorsLst(s.alg) then HeadMirrored(s); Out(s1, Lst, t) else s1;
      WithRecord(s2, t, DispatchedRecord(s.ts[t]))
  }

  /** A task leaving the ready queue (and lst under ADAP-5/6) to run fits its new memberships. */
  lemma ReadyToRun(m: seq<bool>, st: TaskState, d: bool, alg: Algorithm)
    requires |m| == NUM_OF_QUEUES && Fits(m, Role(st, d), false, alg) && m[Queue.Ready.Index()]
    ensures MirrorsLst(alg) ==> m[Lst.Index()]
    ensures !MirrorsLst(alg) ==> Fits(m[Queue.Ready.Index() := false], Role(Run, d), true, alg)
    ensures MirrorsLst(alg) ==> Fits(m[Queue.Ready.Index() := false][Lst.Index() := false], Role(Run, d), true, alg)
  {
  }

  /** With the head off the ready queue and made the running id, every other task is still consistent. */
  lemma DispatchedBut(s: Snapshot)
    requires Consistent(s) && s.running == 0 && s.lists[Queue.Ready.Index()] != []
    ensures var t := s.lists[Queue.Ready.Index()][0]; var s1 := FirstOut(s, Queue.Ready).(running := t);
      && t != 0 && ConsistentBut(s1, t)
      && Fits(Memberships(s.lists, t), RoleOf(s.ts[t]), false, s.alg)
      && Memberships(s1.lists, t) == Memberships(s.lists, t)[Queue.Ready.Index() := false]
  {
    var t := s.lists[Queue.Ready.Index()][0];
    HeadOut(s, Queue.Ready);
    ButRunning(FirstOut(s, Queue.Ready), t, t);
  }

  lemma DispatchKeeps(s: Snapshot)
    requires Consistent(s) && s.running == 0
    ensures Consistent(Dispatch(s))
  {
    if s.lists[Queue.Ready.Index()] != [] {
      var t := s.lists[Queue.Ready.Index()][0];
      var s1 := FirstOut(s, Queue.Ready).(running := t);
      var m := Memberships(s.lists, t);
      DispatchedBut(s);
      ReadyToRun(m, s.ts[t].state, s.ts[t].periodMultiplier >= 1, s.alg);
      if MirrorsLst(s.alg) {
        DispatchMirroredKeeps(s);
      } else {
        RecordFits(s1, t, DispatchedRecord(s.ts[t]));
      }
    }
  }

  lemma DispatchMirroredKeeps(s: Snapshot)
    requires Consistent(s) && s.running == 0 && s.lists[Queue.Ready.Index()] != [] && MirrorsLst(s.alg)
    ensures var t := s.lists[Queue.Ready.Index()][0]; var s1 := FirstOut(s, Queue.Ready).(running := t);
      t in s1.lists[Lst.Index()] && Consistent(WithRecord(Out(s1, Lst, t), t, DispatchedRecord(s.ts[t])))
  {
    var t := s.lists[Queue.Ready.Index()][0];
    var s1 := FirstOut(s, Queue.Ready).(running := t);
    var m := Memberships(s.lists, t);
    DispatchedBut(s);
    ReadyToRun(m, s.ts[t].state, s.ts[t].periodMultiplier >= 1, s.alg);
    OutBut(s1, Lst, t);
    RecordFits(Out(s1, Lst, t), t, DispatchedRecord(s.ts[t]));
  }

  // ----------------------------------------------------------------------
  // skip_first_task (EDF_RTO)

  /**
   * The record of a skipped task: state SKIPPED; NOT_SKIPPED reset to
   * SKIP_GAP cast to U8; a deadline already reached moved to one relative
   * deadline from now (U32); then TOTAL_SKIPS up by one. TOTAL_SKIPS and
   * NOT_SKIPPED are both spare_2, so the reset count is bumped at once.
   */
  function SkippedRecord(r: TaskRecord, now: u32): (k: TaskRecord)
    ensures k.state == TaskState.Skipped
    ensures k.absDline == if r.absDline <= now then Wrap32(now as int + r.relDline as int) else r.absDline
    ensures k.(state := r.state, absDline := r.absDline, spare2 := r.spare2) == r
  {
    var a := r.(state := TaskState.Skipped).WithSpare2(Wrap8(r.SkipGap() as int));
    var b := if a.absDline <= now then a.(absDline := Wrap32(now as int + a.relDline as int)) else a;
    b.WithSpare2(Wrap32(b.TotalSkips() as int + 1))
  }

  /** The skip count left behind is one above SKIP_GAP cast to U8, in both of the aliases that read it. */
  lemma SkipCountsShareField(r: TaskRecord, now: u32)
    ensures SkippedRecord(r, now).NotSkipped() == Wrap8(r.SkipGap() as int) + 1
    ensures SkippedRecord(r, now).TotalSkips() == SkippedRecord(r, now).NotSkipped()
  {
  }

  /**
   * skip_first_task: the head of the ready queue is moved to the skipped
   * queue in the policy's order, and its record then becomes the skipped one.
   */
  function SkipFirst(s: Snapshot, now: u32): (r: Snapshot)
    requires Shaped(s) && s.lists[Queue.Ready.Index()] != []
    ensures Shaped(r) && r.running == s.running && r.alg == s.alg && r.counters == s.counters
    ensures var t := s.lists[Queue.Ready.Index()][0];
      && r.lists[Queue.Ready.Index()] == s.lists[Queue.Ready.Index()][1..] && t in r.lists[Queue.Skipped.Index()]
      && r.ts == s.ts[t := SkippedRecord(s.ts[t], now)]
  {
    var t := s.lists[Queue.Ready.Index()][0];
    var s1 := FirstOut(s, Queue.Ready);
    var s2 := Inserted(s1, Queue.Skipped, t, Q0Order(s.alg));
    WithRecord(s2, t, SkippedRecord(s.ts[t], now))
  }

  lemma ReadyToSkipped(m: seq<bool>, st: TaskState, d: bool, runs: bool, alg: Algorithm)
    requires |m| == NUM_OF_QUEUES && Fits(m, Role(st, d), runs, alg) && m[Queue.Ready.Index()] && alg == EdfRto
    ensures !m[Queue.Idle.Index()] && !m[Queue.Skipped.Index()] && !m[Queue.Removed.Index()] && !m[Queue.Waiting.Index()]
    ensures Fits(m[Queue.Ready.Index() := false][Queue.Skipped.Index() := true], Role(TaskState.Skipped, d), runs, alg)
  {
  }

  /** The head taken off the ready queue is on no q0 queue and fits the skipped queue with its new record. */
  lemma SkipFirstFits(s: Snapshot, now: u32)
    requires Shaped(s) && s.lists[Queue.Ready.Index()] != [] && s.alg == EdfRto
    requires var t := s.lists[Queue.Ready.Index()][0];
      && Fits(Memberships(s.lists, t), RoleOf(s.ts[t]), t == s.running, s.alg)
      && Memberships(FirstOut(s, Queue.Ready).lists, t) == Memberships(s.lists, t)[Queue.Ready.Index() := false]
    ensures var t := s.lists[Queue.Ready.Index()][0]; var s1 := FirstOut(s, Queue.Ready);
      && Unqueued(s1.lists, Q0, t)
      && Fits(Memberships(s1.lists, t)[Queue.Skipped.Index() := true], RoleOf(SkippedRecord(s.ts[t], now)), t == s1.running, s1.alg)
  {
    var t := s.lists[Queue.Ready.Index()][0];
    var m := Memberships(s.lists, t);
    assert m[Queue.Ready.Index()];
    ReadyToSkipped(m, s.ts[t].state, s.ts[t].periodMultiplier >= 1, t == s.running, s.alg);
    Q0Free(FirstOut(s, Queue.Ready).lists, t);
  }

  lemma SkipFirstKeeps(s: Snapshot, now: u32)
    requires Consistent(s) && s.lists[Queue.Ready.Index()] != [] && s.alg == EdfRto
    ensures Consistent(SkipFirst(s, now))
  {
    var t := s.lists[Queue.Ready.Index()][0];
    var s1 := FirstOut(s, Queue.Ready);
    HeadOut(s, Queue.Ready);
    SkipFirstFits(s, now);
    InsertedThenRecord(s1, Queue.Skipped, t, Q0Order(s.alg), SkippedRecord(s.ts[t], now));
  }

  // ----------------------------------------------------------------------
  // The switch every policy makes

  /** Pre-empt the running task, if any, and dispatch the head of the ready queue. */
  function Switch(s: Snapshot): (r: Snapshot)
    requires Consistent(s)
    ensures Consistent(r) && r.alg == s.alg
  {
    if s.running != 0 then
      PreemptKeeps(s);
      DispatchKeeps(Preempt(s));
      Dispatch(Preempt(s))
    else
      DispatchKeeps(s);
      Dispatch(s)
  }

  /** The keys the ready queue is ordered by are untouched by a pre-emption. */
  lemma PreemptedSameKeys(o: Order, r: TaskRecord, n: TaskRecord)
    ensures Behind(o, PreemptedRecord(r), n) == Behind(o, r, n)
  {
  }

  /**
   * When the running task would be walked past the head of the ready queue
   * (it goes behind it in the policy's order), the switch runs that head and
   * leaves the pre-empted task waiting in the ready queue; with nothing
   * running it simply runs the head.
   */
  lemma SwitchRunsHead(s: Snapshot)
    requires Consistent(s) && s.lists[Queue.Ready.Index()] != []
    requires s.running != 0 ==> Behind(Q0Order(s.alg), s.ts[s.running], s.ts[Head(s)])
    ensures Switch(s).running == Head(s) && Switch(s).ts[Head(s)].state == Run
    ensures s.running != 0 ==> s.running in Switch(s).lists[Queue.Ready.Index()]
  {
    if s.running != 0 {
      var t := s.running;
      var l := s.lists[Queue.Ready.Index()];
      var u := Unseated(s);
      var k := InsertIndex(Q0Order(s.alg), u.ts, l, u.ts[t]);
      MemberFits(s, t);
      assert t != l[0];
      PreemptedSameKeys(Q0Order(s.alg), s.ts[t], s.ts[l[0]]);
      assert k >= 1;
      PreemptPlaces(s);
      PreemptKeeps(s);
      var p := Preempt(s);
      assert p.lists[Queue.Ready.Index()][0] == l[0];
      assert p.lists[Queue.Ready.Index()][1..][k - 1] == t;
    }
  }

  /**
   * IRM queues by no key, so a pre-empted task goes back to the head of the
   * ready queue and is dispatched again at once: the switch never changes
   * the running task.
   */
  lemma IrmSwitchKeepsRunning(s: Snapshot)
    requires Consistent(s) && s.alg == Irm && s.running != 0
    ensures Switch(s).running == s.running
  {
    var t := s.running;
    var l := s.lists[Queue.Ready.Index()];
    var u := Unseated(s);
    assert Q0Order(s.alg) == Unordered;
    assert InsertIndex(Unordered, u.ts, l, u.ts[t]) == 0;
    PreemptPlaces(s);
    PreemptKeeps(s);
    assert Preempt(s).lists[Queue.Ready.Index()] == [t] + l;
  }

  // ----------------------------------------------------------------------
  // The policies of process_ready_tasks

  /** The metric writes a policy makes before its test. */
  function Prepared(s: Snapshot, now: u32): (r: Snapshot)
    requires Shaped(s)
    ensures Shaped(r) && r.lists == s.lists && r.running == s.running && r.alg == s.alg && r.counters == s.counters
    ensures s.alg == Drm ==> r.ts[Head(s)].laxity == Laxity(s.ts[Head(s)], now)
  {
    match s.alg
    case Drm => LaxityOf(s, Head(s), now)
    case Muf => Urgencies(Laxities(s, now))
    case Mmuf => Urgencies(Laxities(s, now))
    case Mmmuf => Urgencies(Laxities(s, now))
    case Llf => Laxities(s, now)
    case Mllf => Laxities(s, now)
    case _ => s
  }

  lemma PreparedKeeps(s: Snapshot, now: u32)
    requires Consistent(s)
    ensures Consistent(Prepared(s, now))
  {
    MetricsKeep(s, 0, now, Head(s));
    MetricsKeep(Laxities(s, now), 0, now, 0);
  }

  /** The test of schedule_edf_algorithm: the head's deadline is earlier, or nothing runs. */
  predicate EdfPrefers(s: Snapshot)
    requires Shaped(s)
  {
    s.ts[Head(s)].absDline < s.ts[s.running].absDline || s.running == 0
  }

  /**
   * The test each policy applies to the head of the ready queue and the
   * running task (slot 0's record when nothing runs), after its metric writes.
   */
  predicate Prefers(s: Snapshot)
    requires Shaped(s)
  {
    Beats(s.alg, s.ts[Head(s)], s.ts[s.running], s.running == 0)
  }

  /** The test of the policy of `alg` on head record `f` and running record `run`; `idle` when nothing runs. */
  predicate Beats(alg: Algorithm, f: TaskRecord, run: TaskRecord, idle: bool)
  {
    match alg
    case Rm => f.priority < run.priority || idle
    case Irm => f.priority < run.priority || idle
    case Drm => (f.priority < run.priority || idle) && f.laxity == 0
    case Muf => f.MufUrgency() > run.MufUrgency() || idle
    case Mmuf => f.laxity == 0 || idle
    case Mmmuf => f.laxity == 0 || (run.MufCritical() == 0 && f.MufUrgency() > run.MufUrgency()) || idle
    case Edf => f.absDline < run.absDline || idle
    case Spt => f.timeLeft < run.timeLeft || idle
    case Llf => f.laxity < run.laxity || idle
    case Mllf => f.laxity == 0 || idle
    case _ => false
  }

  /**
   * schedule_rm/drm/irm/muf/mmuf/mmmuf/edf/spt/llf/mllf_algorithm: the
   * metric writes, then a switch when the policy prefers the head.
   */
  function Policy(s: Snapshot, now: u32): (r: Snapshot)
    requires Consistent(s)
    ensures Consistent(r) && r.alg == s.alg
  {
    var p := Prepared(s, now);
    PreparedKeeps(s, now);
    if Prefers(p) then Switch(p) else p
  }

  /** schedule_edf_algorithm, which the adaptive policies end with whatever the algorithm in force. */
  function EdfPolicy(s: Snapshot): (r: Snapshot)
    requires Consistent(s)
    ensures Consistent(r) && r.alg == s.alg
    ensures !EdfPrefers(s) ==> r == s
  {
    if EdfPrefers(s) then Switch(s) else s
  }

  /**
   * A policy whose ready queue is ordered by the key its test compares (RM,
   * DRM, MUF, EDF, SPT, LLF) runs the head exactly when its test prefers it,
   * and otherwise leaves the running task alone; any policy runs the head
   * when nothing runs and its test holds.
   */
  lemma PolicyDecides(s: Snapshot, now: u32)
    requires Consistent(s) && s.lists[Queue.Ready.Index()] != []
    ensures !Prefers(Prepared(s, now)) ==> Policy(s, now) == Prepared(s, now)
    ensures Prefers(Prepared(s, now)) && (s.alg in {Rm, Drm, Muf, Edf, Spt, Llf} || s.running == 0) ==>
              Policy(s, now).running == Head(s) && Policy(s, now).ts[Head(s)].state == Run
  {
    var p := Prepared(s, now);
    PreparedKeeps(s, now);
    if Prefers(p) && (s.alg in {Rm, Drm, Muf, Edf, Spt, Llf} || s.running == 0) {
      if p.running != 0 {
        BeatsIsBehind(p.alg, p.ts[Head(p)], p.ts[p.running]);
      }
      SwitchRunsHead(p);
      assert Policy(s, now) == Switch(p);
    }
  }

  /** For a policy whose queue order is its test's key, a preferred head is one the running task goes behind. */
  lemma BeatsIsBehind(alg: Algorithm, f: TaskRecord, run: TaskRecord)
    requires alg in {Rm, Drm, Muf, Edf, Spt, Llf} && Beats(alg, f, run, false)
    ensures Behind(Q0Order(alg), run, f)
  {
  }

  /** Under IRM a running task keeps the processor, whatever the head of the ready queue. */
  lemma IrmKeepsRunningTask(s: Snapshot, now: u32)
    requires Consistent(s) && s.alg == Irm && s.running != 0
    ensures Policy(s, now).running == s.running
  {
    PreparedKeeps(s, now);
    if Prefers(Prepared(s, now)) {
      IrmSwitchKeepsRunning(Prepared(s, now));
    }
  }

  /** DRM dispatches only a head with no laxity left, even when nothing runs. */
  lemma DrmNeedsZeroLaxity(s: Snapshot, now: u32)
    requires Consistent(s) && s.alg == Drm && Laxity(s.ts[Head(s)], now) != 0
    ensures Policy(s, now).running == s.running
  {
  }

  /**
   * The final EDF step of the adaptive policies, on a queue kept by deadline:
   * the head runs exactly when its deadline is earlier or nothing runs.
   */
  lemma EdfRunsEarlierHead(s: Snapshot)
    requires Consistent(s) && s.lists[Queue.Ready.Index()] != [] && Q0Order(s.alg) == ByDeadline
    ensures EdfPrefers(s) ==> EdfPolicy(s).running == Head(s) && EdfPolicy(s).ts[Head(s)].state == Run
    ensures !EdfPrefers(s) ==> EdfPolicy(s) == s
  {
    if EdfPrefers(s) {
      SwitchRunsHead(s);
    }
  }

  // ----------------------------------------------------------------------
  // schedule_skip_rto_algorithm (EDF_RTO)

  /** task_skippable: the task's NOT_SKIPPED count has run out. */
  predicate Skippable(r: TaskRecord)
  {
    r.NotSkipped() == 0
  }

  /** can_meet_deadline: the U32 sum of time left and now read as a boolean; the deadline is not consulted. */
  predicate CanMeet(r: TaskRecord, now: u32)
  {
    Wrap32(r.timeLeft as int + now as int) != 0
  }

  /** Any task whose time left and now sum to a non-zero U32 "can meet" its deadline, however past it is. */
  lemma CanMeetIgnoresDeadline(r: TaskRecord, now: u32, d: u32)
    requires 0 < r.timeLeft as int + now as int < TWO_32
    ensures CanMeet(r.(absDline := d), now)
  {
  }

  /**
   * The red-tasks-only skip-over policy. With nothing running: a head whose
   * NOT_SKIPPED count is 0 is skipped unless both it and its successor can
   * meet their deadlines, and then the (new) head is dispatched. With a task
   * running: the head pre-empts it, without being dispatched, when its
   * deadline is earlier and its time left is below the running task's laxity.
   */
  function SkipRto(s: Snapshot, now: u32): (r: Snapshot)
    requires Consistent(s) && s.alg == EdfRto && s.lists[Queue.Ready.Index()] != []
    ensures Consistent(r) && r.alg == s.alg
  {
    var first := Head(s);
    var second := Second(s);
    if s.running == 0 then
      if Skippable(s.ts[first]) then
        if CanMeet(s.ts[first], now) then
          if CanMeet(s.ts[second], now) then
            DispatchKeeps(s);
            Dispatch(s)
          else
            SkipFirstKeeps(s, now);
            DispatchKeeps(SkipFirst(s, now));
            Dispatch(SkipFirst(s, now))
        else
          SkipFirstKeeps(s, now);
          DispatchKeeps(SkipFirst(s, now));
          Dispatch(SkipFirst(s, now))
      else
        DispatchKeeps(s);
        Dispatch(s)
    else if s.ts[first].absDline < s.ts[s.running].absDline && s.ts[first].timeLeft < s.ts[s.running].laxity then
      PreemptKeeps(s);
      Preempt(s)
    else s
  }

  /** With a task running, EDF_RTO only ever pre-empts: afterwards the same task runs, or none. */
  lemma SkipRtoOnlyPreempts(s: Snapshot, now: u32)
    requires Consistent(s) && s.alg == EdfRto && s.lists[Queue.Ready.Index()] != [] && s.running != 0
    ensures SkipRto(s, now).running == 0 <==>
              s.ts[Head(s)].absDline < s.ts[s.running].absDline && s.ts[Head(s)].timeLeft < s.ts[s.running].laxity
    ensures SkipRto(s, now).running != 0 ==> SkipRto(s, now) == s
  {
  }

  /** Skipping the head and dispatching: the head is in the skipped queue and its successor runs. */
  lemma SkipThenDispatch(s: Snapshot, now: u32)
    requires Consistent(s) && s.alg == EdfRto && s.lists[Queue.Ready.Index()] != [] && s.running == 0
    ensures Consistent(SkipFirst(s, now))
    ensures Head(s) in Dispatch(SkipFirst(s, now)).lists[Queue.Skipped.Index()]
    ensures Dispatch(SkipFirst(s, now)).running == Second(s)
  {
    SkipFirstKeeps(s, now);
    var l := s.lists[Queue.Ready.Index()];
    if |l| >= 2 {
      assert l[1..][0] == l[1];
    }
  }

  /**
   * With nothing running, a skippable head that cannot meet its deadline (or
   * whose successor cannot) goes to the skipped queue and its successor runs.
   */
  lemma SkipRtoSkipsHead(s: Snapshot, now: u32)
    requires Consistent(s) && s.alg == EdfRto && s.lists[Queue.Ready.Index()] != [] && s.running == 0
    requires s.ts[Head(s)].NotSkipped() == 0 && !(CanMeet(s.ts[Head(s)], now) && CanMeet(s.ts[Second(s)], now))
    ensures Head(s) in SkipRto(s, now).lists[Queue.Skipped.Index()]
    ensures SkipRto(s, now).running == Second(s)
  {
    SkipThenDispatch(s, now);
  }
}

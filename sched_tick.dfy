// One tick of the simulation: the running task does a unit of work
// (TSK_run_task_cycle), then SCH_start recalculates the metrics, moves
// waiting, completed, removed, doubled, skipped and idle tasks, and hands
// the ready queue to the algorithm in force.

module SchedTick {
  import opened CTypes
  import opened Task
  import opened TestReport
  import opened Queues
  import opened Metrics
  import opened SchedState
  import opened SchedOps
  import opened SchedSteps
  import opened SchedPolicy
  import opened SchedAdapt

  /** The algorithms whose handler loops without bound when it runs out of candidates. */
  predicate Unbounded(alg: Algorithm)
  {
    alg == Adap01 || alg == Adap02 || alg == Adap03 || alg == Adap04 || alg == Adap05
  }

  /**
   * process_ready_tasks: with a non-empty ready queue, the handler of the
   * algorithm in force. CYC, RR, RM-RTO, EDF-BWP, D*, DD*, D-over and the
   * out-of-range value change nothing.
   */
  function ProcessReady(s: Snapshot, now: u32, testNum: u8): (o: Outcome)
    requires Consistent(s)
    ensures o.Done? ==> Consistent(o.s) && o.s.alg == s.alg
    ensures s.lists[Queue.Ready.Index()] == [] ==> o == Done(s)
    ensures !Unbounded(s.alg) ==> o.Done?
    ensures Idles(s.alg) ==> o == Done(s)
  {
    if s.lists[Queue.Ready.Index()] == [] then Done(s)
    else if Unbounded(s.alg) then UnboundedHandler(s, now)
    else Done(BoundedHandler(s, now, testNum))
  }

  /** The ADAP-1 to ADAP-5 arms of process_ready_tasks, whose loops can spin. */
  function UnboundedHandler(s: Snapshot, now: u32): (o: Outcome)
    requires Consistent(s) && Unbounded(s.alg)
    ensures o.Done? ==> Consistent(o.s) && o.s.alg == s.alg
  {
    if s.alg == Adap01 || s.alg == Adap02 then Adap1(s, now)
    else if s.alg == Adap03 || s.alg == Adap04 then Adap3(s)
    else Adap5(s, now)
  }

  /**
   * The algorithms whose arm of process_ready_tasks changes nothing:
   * schedule_cyc_algorithm and schedule_rr_algorithm are empty, the D* call
   * is compiled out, and the rest fall to the default arm.
   */
  predicate Idles(alg: Algorithm)
  {
    alg in {Cyc, Rr, RmRto, EdfBwp, DStar, DdStar, DOver, MaxAlg}
  }

  /** The other arms of process_ready_tasks: ADAP-6, ADAP-7, EDF-RTO and the policies. */
  function BoundedHandler(s: Snapshot, now: u32, testNum: u8): (r: Snapshot)
    requires Consistent(s) && !Unbounded(s.alg) && s.lists[Queue.Ready.Index()] != []
    ensures Consistent(r) && r.alg == s.alg
    ensures Idles(s.alg) ==> r == s
  {
    if Idles(s.alg) then s
    else if s.alg == Adap06 then Adap6(s, now)
    else if s.alg == Adap07 then Adap7(s, now, testNum)
    else if s.alg == EdfRto then SkipRto(s, now)
    else Policy(s, now)
  }

  /** The algorithms whose ready tasks carry a MUF urgency. */
  predicate UsesUrgency(alg: Algorithm)
  {
    alg == Muf || alg == Mmuf || alg == Mmmuf
  }

  /** The algorithms for which SCH_start processes the doubled-periods queue. */
  predicate DoublesPeriods(alg: Algorithm)
  {
    alg == Adap02 || alg == Adap03 || alg == Adap04 || alg == Adap05 || alg == Adap06 || alg == Adap07
  }

  /** The algorithms for which SCH_start processes the skipped queue. */
  predicate SkipsTasks(alg: Algorithm)
  {
    alg == RmRto || alg == EdfRto || alg == EdfBwp
  }

  /** The metrics SCH_start recalculates first: all laxities, then the MUF urgencies where the algorithm uses them. */
  function Refreshed(s: Snapshot, now: u32): (r: Snapshot)
    requires Consistent(s)
    ensures Consistent(r) && r.alg == s.alg && r.lists == s.lists && r.running == s.running
  {
    var s1 := Laxities(s, now);
    MetricsKeep(s, 0, now, 0);
    MetricsKeep(s1, 0, now, 0);
    if UsesUrgency(s.alg) then Urgencies(s1) else s1
  }

  /** The waiting, completed and removed tasks processed, in that order. */
  function Retired(s: Snapshot, now: u32): (r: Snapshot)
    requires Consistent(s)
    ensures Consistent(r) && r.alg == s.alg
  {
    var s1 := ProcessWaiting(s, now);
    ProcessCompletedKeeps(s1, now);
    ProcessRemoved(ProcessCompleted(s1, now), now)
  }

  /** The doubled periods and the skipped tasks where the algorithm has them, then the idle tasks. */
  function Restored(s: Snapshot, now: u32): (r: Snapshot)
    requires Consistent(s)
    ensures Consistent(r) && r.alg == s.alg
  {
    var s1 := if DoublesPeriods(s.alg) then ProcessDoubled(s) else s;
    var s2 := if SkipsTasks(s.alg) then ProcessSkipped(s1, now) else s1;
    ProcessIdle(s2, now)
  }

  /** SCH_start up to process_ready_tasks: metrics, then the queues in the source's order. */
  function Housekeeping(s: Snapshot, now: u32): (r: Snapshot)
    requires Consistent(s)
    ensures Consistent(r) && r.alg == s.alg
  {
    Restored(Retired(Refreshed(s, now), now), now)
  }

  /**
   * SCH_start: the housekeeping, then process_ready_tasks. Only the
   * unbounded ADAP-1 to ADAP-5 loops can keep the call from returning.
   */
  function Start(s: Snapshot, now: u32, testNum: u8): (o: Outcome)
    requires Consistent(s)
    ensures o.Done? ==> Consistent(o.s) && o.s.alg == s.alg
    ensures !Unbounded(s.alg) ==> o.Done?
  {
    ProcessReady(Housekeeping(s, now), now, testNum)
  }

  /**
   * TSK_run_task_cycle on the snapshot: a running task with time left does
   * one unit of work; the report's duration count goes up by one.
   */
  function Cycled(s: Snapshot): (r: Snapshot)
    requires Consistent(s)
    ensures Consistent(r) && r.lists == s.lists && r.running == s.running && r.alg == s.alg
    ensures r.counters == Counted(s.counters, Duration, 1)
    ensures s.running != 0 && s.ts[s.running].timeLeft > 0 ==> r.ts == s.ts[s.running := Worked(s.ts[s.running])]
    ensures s.running == 0 || s.ts[s.running].timeLeft == 0 ==> r.ts == s.ts
  {
    var t := s.running;
    var w :=
      if t != 0 && s.ts[t].timeLeft > 0 then
        var rec := Worked(s.ts[t]);
        ConsistentForAllBut(s, t);
        MemberFits(s, t);
        RecordFits(s, t, rec);
        WithRecord(s, t, rec)
      else s;
    ButCounters(w, 0, Counted(w.counters, Duration, 1));
    w.(counters := Counted(w.counters, Duration, 1))
  }

  /** What one pass of the simulation loop leaves: the scheduler's outcome, the new time and whether the test ends. */
  datatype Step = Step(o: Outcome, now: u32, ends: bool)

  /**
   * One pass of the simulation loop of TST_test: the time goes up by one
   * (U32), the running task works, SCH_start runs at the new time, and the
   * test ends once the time is past the test duration.
   */
  function Tick(s: Snapshot, timeval: u32, duration: u32, testNum: u8): (t: Step)
    requires Consistent(s)
    ensures t.o.Done? ==> Consistent(t.o.s) && t.o.s.alg == s.alg
    ensures !Unbounded(s.alg) ==> t.o.Done?
    ensures t.now == Wrap32(timeval as int + 1) && (t.ends <==> t.now > duration)
  {
    var now := Wrap32(timeval as int + 1);
    Step(Start(Cycled(s), now, testNum), now, now > duration)
  }
}

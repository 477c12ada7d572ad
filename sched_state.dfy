// The consistency invariant of the scheduler object, stated on a snapshot of
// its state: every queue well linked, and every task's queue memberships in
// agreement with its state, the running id and the algorithm in force.

module SchedState {
  import opened CTypes
  import opened Task
  import opened Queues
  import opened Metrics
  import opened TestReport

  /**
   * A snapshot of the scheduler object: the task records, their link cells,
   * the seven queue headers, the lists those headers denote, the running id,
   * the algorithm and the test report counters.
   */
  datatype Snapshot = Snapshot(ts: seq<TaskRecord>, ls: seq<Links>, hs: seq<Links>, lists: seq<seq<Slot>>,
                               running: Slot, alg: Algorithm, counters: seq<u32>)

  ghost predicate Shaped(s: Snapshot)
  {
    |s.ts| == NUM_OF_TASKS && |s.ls| == NUM_OF_TASKS && |s.hs| == NUM_OF_QUEUES && |s.lists| == NUM_OF_QUEUES
    && |s.counters| == TST_MAX_TST
  }

  /** ADAP-5 and ADAP-6 keep every ready task in the lst queue as well. */
  predicate MirrorsLst(alg: Algorithm)
  {
    alg == Adap05 || alg == Adap06
  }

  /**
   * ADAP-3 to ADAP-6 queue a task as doubled only after doubling it from a
   * multiplier of 0, and take it off again before its multiplier returns to 0.
   */
  predicate DoublesFromZero(alg: Algorithm)
  {
    alg == Adap03 || alg == Adap04 || alg == Adap05 || alg == Adap06
  }

  /** States of tasks waiting in the ready queue. */
  predicate Queued(st: TaskState)
  {
    st == TaskState.Ready || st == Preempted
  }

  /** What of a task record the invariant looks at. */
  datatype Role = Role(state: TaskState, doubled: bool)

  function RoleOf(r: TaskRecord): Role
  {
    Role(r.state, r.periodMultiplier >= 1)
  }

  /** Which of the seven lists hold slot i. */
  ghost function Memberships(lists: seq<seq<Slot>>, i: Slot): (m: seq<bool>)
    requires |lists| == NUM_OF_QUEUES
    ensures |m| == NUM_OF_QUEUES
    ensures forall g: Queue :: m[g.Index()] == (i in lists[g.Index()])
  {
    seq(NUM_OF_QUEUES, k requires 0 <= k < NUM_OF_QUEUES => i in lists[k])
  }

  /**
   * A task's memberships agree with its role: each q0 queue holds exactly the
   * tasks of its state (ready: READY and PREMPT), the running id is the RUN
   * task, skipped tasks exist only under EDF_RTO, the lst queue mirrors the
   * ready queue under ADAP-5/6, and a doubled-queue member of ADAP-3 to
   * ADAP-6 has been doubled.
   */
  predicate Fits(m: seq<bool>, role: Role, runs: bool, alg: Algorithm)
    requires |m| == NUM_OF_QUEUES
  {
    (m[Queue.Ready.Index()] <==> Queued(role.state))
    && (m[Queue.Idle.Index()] <==> role.state == TaskState.Idle)
    && (m[Queue.Skipped.Index()] <==> role.state == TaskState.Skipped)
    && (m[Queue.Removed.Index()] <==> role.state == TaskState.Removed)
    && (m[Queue.Waiting.Index()] <==> role.state == TaskState.Waiting)
    && (runs <==> role.state == Run)
    && (role.state == TaskState.Skipped ==> alg == EdfRto)
    && (MirrorsLst(alg) ==> (m[Lst.Index()] <==> Queued(role.state)))
    && (DoublesFromZero(alg) && m[Doubled.Index()] ==> role.doubled)
  }

  ghost predicate SlotOk(s: Snapshot, i: Slot)
    requires Shaped(s)
  {
    Fits(Memberships(s.lists, i), RoleOf(s.ts[i]), i == s.running, s.alg)
  }

  /** The invariant for every task but t, which an operation is moving between queues. */
  ghost predicate ConsistentBut(s: Snapshot, t: Slot)
  {
    Shaped(s) && QueuesOk(s.ls, s.hs, s.lists)
    && forall i: Slot :: i != 0 && i != t ==> SlotOk(s, i)
  }

  ghost predicate Consistent(s: Snapshot)
  {
    ConsistentBut(s, 0)
  }

  /** A consistent state is consistent for every task but any one. */
  lemma ConsistentForAllBut(s: Snapshot, t: Slot)
    requires Consistent(s)
    ensures ConsistentBut(s, t)
  {
  }

  /** When the moving task fits again, the whole state is consistent. */
  lemma ConsistentAgain(s: Snapshot, t: Slot)
    requires ConsistentBut(s, t) && SlotOk(s, t)
    ensures Consistent(s)
  {
  }

  // ----------------------------------------------------------------------
  // How the memberships move

  lemma InsertedMemberships(lists: seq<seq<Slot>>, h: Queue, task: Slot, k: nat, i: Slot)
    requires |lists| == NUM_OF_QUEUES && k <= |lists[h.Index()]|
    ensures Memberships(InsertedLists(lists, h, task, k), i)
            == if i == task then Memberships(lists, i)[h.Index() := true] else Memberships(lists, i)
  {
    var s := lists[h.Index()];
    var s' := s[..k] + [task] + s[k..];
    assert s == s[..k] + s[k..];
    assert forall x :: x in s' <==> x in s || x == task;
  }

  lemma RemovedMemberships(lists: seq<seq<Slot>>, h: Queue, k: nat, i: Slot)
    requires |lists| == NUM_OF_QUEUES && k < |lists[h.Index()]|
    requires 0 !in lists[h.Index()] && Distinct(lists[h.Index()])
    ensures Memberships(RemovedLists(lists, h, k), i)
            == if i == lists[h.Index()][k] then Memberships(lists, i)[h.Index() := false] else Memberships(lists, i)
  {
    var s := lists[h.Index()];
    RemovedSeq(s, k);
    RemovedKeepsOthers(s, k, i);
  }

  // ----------------------------------------------------------------------
  // Steps that leave the other tasks' roles alone

  /** Changing only the moving task's record keeps the others consistent. */
  lemma ButRecord(s: Snapshot, t: Slot, r: TaskRecord)
    requires ConsistentBut(s, t)
    ensures ConsistentBut(s.(ts := s.ts[t := r]), t)
  {
    var s' := s.(ts := s.ts[t := r]);
    forall i: Slot | i != 0 && i != t ensures SlotOk(s', i)
    {
      assert SlotOk(s, i);
      assert s'.ts[i] == s.ts[i];
    }
  }

  /** Record changes that keep every role keep the state consistent for all but t. */
  lemma RolesKept(s: Snapshot, ts': seq<TaskRecord>, t: Slot)
    requires ConsistentBut(s, t) && |ts'| == NUM_OF_TASKS
    requires forall i: Slot :: i != 0 && i != t ==> RoleOf(ts'[i]) == RoleOf(s.ts[i])
    ensures ConsistentBut(s.(ts := ts'), t)
  {
    var s' := s.(ts := ts');
    forall i: Slot | i != 0 && i != t ensures SlotOk(s', i)
    {
      assert SlotOk(s, i);
      assert RoleOf(s'.ts[i]) == RoleOf(s.ts[i]);
    }
  }

  /** Handing the processor between nothing and the moving task keeps the others consistent. */
  lemma ButRunning(s: Snapshot, t: Slot, r: Slot)
    requires ConsistentBut(s, t)
    requires (s.running == 0 || s.running == t) && (r == 0 || r == t)
    ensures ConsistentBut(s.(running := r), t)
  {
    var s' := s.(running := r);
    forall i: Slot | i != 0 && i != t ensures SlotOk(s', i)
    {
      assert SlotOk(s, i);
      assert (i == s'.running) == (i == s.running);
    }
  }

  /** Queue operations that change only the moving task's memberships keep the others consistent. */
  lemma ButLists(s: Snapshot, ls': seq<Links>, hs': seq<Links>, lists': seq<seq<Slot>>, t: Slot)
    requires ConsistentBut(s, t) && |ls'| == NUM_OF_TASKS && |hs'| == NUM_OF_QUEUES && |lists'| == NUM_OF_QUEUES
    requires QueuesOk(ls', hs', lists')
    requires forall i: Slot :: i != t ==> Memberships(lists', i) == Memberships(s.lists, i)
    ensures ConsistentBut(s.(ls := ls', hs := hs', lists := lists'), t)
  {
    var s' := s.(ls := ls', hs := hs', lists := lists');
    forall i: Slot | i != 0 && i != t ensures SlotOk(s', i)
    {
      assert SlotOk(s, i);
      assert Memberships(s'.lists, i) == Memberships(s.lists, i);
    }
  }

  /** With an empty ready queue, the lst queue of ADAP-5/6 is empty too. */
  lemma MirrorEmpty(s: Snapshot)
    requires Consistent(s) && MirrorsLst(s.alg) && s.lists[Queue.Ready.Index()] == []
    ensures s.lists[Lst.Index()] == []
  {
    var l := s.lists[Lst.Index()];
    assert Linked(s.ls, Q2, s.hs[Lst.Index()].Next(Q2), l);
    forall x | x in l ensures x in s.lists[Queue.Ready.Index()]
    {
      assert SlotOk(s, x);
    }
    ContainedNonEmpty(l, s.lists[Queue.Ready.Index()]);
  }

  lemma ContainedNonEmpty(l: seq<Slot>, m: seq<Slot>)
    requires forall x :: x in l ==> x in m
    ensures |l| > 0 ==> |m| > 0
  {
    if |l| > 0 {
      assert l[0] in m;
    }
  }
}

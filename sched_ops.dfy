// The queue and metric operations of scheduler.c as functions from one
// snapshot of the scheduler object to the next, and the lemmas that tell how
// each one moves a task's queue memberships while keeping every other task
// consistent.

module SchedOps {
  import opened CTypes
  import opened Task
  import opened TestReport
  import opened Queues
  import opened Metrics
  import opened SchedState

  // ----------------------------------------------------------------------
  // Positions in a list

  /** The position of `x` in `l`: its first occurrence. */
  function IndexOf(l: seq<Slot>, x: Slot): (k: nat)
    requires x in l
    ensures k < |l| && l[k] == x
    ensures x !in l[..k]
  {
    if l[0] == x then 0
    else
      var k := IndexOf(l[1..], x);
      assert l[..k + 1] == [l[0]] + l[1..][..k];
      k + 1
  }

  /** The header q0_extract picks from the task's state: ready for READY, PREMPT and any state it does not name. */
  function ExtractHeader(st: TaskState): (h: Queue)
    ensures h.Link() == Q0
    ensures st == TaskState.Removed ==> h == Queue.Removed
    ensures st == TaskState.Idle ==> h == Queue.Idle
    ensures st != TaskState.Removed && st != TaskState.Idle ==> h == Queue.Ready
  {
    if Queued(st) then Queue.Ready
    else if st == TaskState.Removed then Queue.Removed
    else if st == TaskState.Idle then Queue.Idle
    else Queue.Ready
  }

  /** In a consistent state q0_extract finds a READY, PREMPT, REMOVED or IDLE task on the queue it picks. */
  lemma ExtractHeaderFinds(s: Snapshot, t: Slot)
    requires Consistent(s) && t != 0
    requires Queued(s.ts[t].state) || s.ts[t].state == TaskState.Removed || s.ts[t].state == TaskState.Idle
    ensures t in s.lists[ExtractHeader(s.ts[t].state).Index()]
  {
    assert SlotOk(s, t);
  }

  // ----------------------------------------------------------------------
  // Queue operations on a snapshot

  /**
   * q0_insert, q1_insert or q2_insert of `task` into queue `h` in order `o`:
   * the walk's position in the list, and the link writes of the splice.
   */
  function Inserted(s: Snapshot, h: Queue, task: Slot, o: Order): (r: Snapshot)
    requires Shaped(s)
    ensures Shaped(r) && r.ts == s.ts && r.running == s.running && r.alg == s.alg && r.counters == s.counters
    ensures var l := s.lists[h.Index()]; var k := InsertIndex(o, s.ts, l, s.ts[task]);
      && r.lists[h.Index()] == l[..k] + [task] + l[k..]
      && (forall g: Queue :: g != h ==> r.lists[g.Index()] == s.lists[g.Index()])
  {
    var l := s.lists[h.Index()];
    var k := InsertIndex(o, s.ts, l, s.ts[task]);
    var c := Splice(Cells(s.ls, s.hs[h.Index()]), h.Link(), task, Before(l, k), At(l, k));
    assert forall g: Queue :: g != h ==> g.Index() != h.Index() by {
      forall g: Queue { QueueIndexInjective(g, h); }
    }
    s.(ls := c.ls, hs := s.hs[h.Index() := c.hd], lists := InsertedLists(s.lists, h, task, k))
  }

  /** q_extract_first on a non-empty q0 queue: the head leaves the list. */
  function FirstOut(s: Snapshot, h: Queue): (r: Snapshot)
    requires Shaped(s) && h.Link() == Q0 && s.lists[h.Index()] != []
    ensures Shaped(r) && r.ts == s.ts && r.running == s.running && r.alg == s.alg && r.counters == s.counters
    ensures r.lists[h.Index()] == s.lists[h.Index()][1..]
    ensures forall g: Queue :: g != h ==> r.lists[g.Index()] == s.lists[g.Index()]
  {
    var e := ExtractFirst(Cells(s.ls, s.hs[h.Index()]));
    assert forall g: Queue :: g != h ==> g.Index() != h.Index() by {
      forall g: Queue { QueueIndexInjective(g, h); }
    }
    assert s.lists[h.Index()][..0] + s.lists[h.Index()][1..] == s.lists[h.Index()][1..];
    s.(ls := e.cells.ls, hs := s.hs[h.Index() := e.cells.hd], lists := RemovedLists(s.lists, h, 0))
  }

  /** q0_extract or q2_extract of a member of queue `h`: it leaves the list wherever it stands. */
  function Out(s: Snapshot, h: Queue, task: Slot): (r: Snapshot)
    requires Shaped(s) && task in s.lists[h.Index()]
    ensures Shaped(r) && r.ts == s.ts && r.running == s.running && r.alg == s.alg && r.counters == s.counters
    ensures var l := s.lists[h.Index()]; var k := IndexOf(l, task);
      r.lists[h.Index()] == l[..k] + l[k + 1..]
    ensures forall g: Queue :: g != h ==> r.lists[g.Index()] == s.lists[g.Index()]
  {
    var c := Unlink(Cells(s.ls, s.hs[h.Index()]), h.Link(), task);
    assert forall g: Queue :: g != h ==> g.Index() != h.Index() by {
      forall g: Queue { QueueIndexInjective(g, h); }
    }
    s.(ls := c.ls, hs := s.hs[h.Index() := c.hd], lists := RemovedLists(s.lists, h, IndexOf(s.lists[h.Index()], task)))
  }

  /** q1_extract on the doubled-periods queue: a member leaves it, any other task changes nothing. */
  function Q1Out(s: Snapshot, task: Slot): (r: Snapshot)
    requires Shaped(s)
    ensures Shaped(r) && r.ts == s.ts && r.running == s.running && r.alg == s.alg && r.counters == s.counters
    ensures task !in s.lists[Doubled.Index()] ==> r == s
  {
    if task in s.lists[Doubled.Index()] then Out(s, Doubled, task) else s
  }

  // ----------------------------------------------------------------------
  // Record and counter updates

  /** TST_incr_test_report_value / TST_add_test_report_value on the counter table. */
  function Counted(counters: seq<u32>, c: Counter, v: u32): (r: seq<u32>)
    requires |counters| == TST_MAX_TST
    ensures |r| == TST_MAX_TST
    ensures r[c.Index()] == Wrap32(counters[c.Index()] as int + v)
    ensures forall i :: 0 <= i < TST_MAX_TST && i != c.Index() ==> r[i] == counters[i]
  {
    counters[c.Index() := Wrap32(counters[c.Index()] as int + v)]
  }

  /** Assignments to fields of task t's record. */
  function WithRecord(s: Snapshot, t: Slot, rec: TaskRecord): (r: Snapshot)
    requires Shaped(s)
    ensures Shaped(r) && r.ts[t] == rec
    ensures r.lists == s.lists && r.running == s.running && r.alg == s.alg && r.counters == s.counters
  {
    s.(ts := s.ts[t := rec])
  }

  /** calculate_all_laxities on the snapshot. */
  function Laxities(s: Snapshot, now: u32): (r: Snapshot)
    requires Shaped(s)
    ensures Shaped(r)
  {
    s.(ts := WithLaxities(s.ts, now))
  }

  /** calculate_all_muf_urgencies on the snapshot. */
  function Urgencies(s: Snapshot): (r: Snapshot)
    requires Shaped(s)
    ensures Shaped(r)
  {
    s.(ts := WithUrgencies(s.ts))
  }

  /** The writes of calculate_all_task_utilities on the snapshot. */
  function Utilities(s: Snapshot): (r: Snapshot)
    requires Shaped(s)
    ensures Shaped(r)
  {
    s.(ts := WithUtilities(s.ts))
  }

  /** The writes of get_active_task_priority on the snapshot. */
  function EPriorities(s: Snapshot): (r: Snapshot)
    requires Shaped(s)
    ensures Shaped(r)
  {
    s.(ts := WithEPriorities(s.ts))
  }

  /** calculate_laxity of one task: its laxity field is written, whatever its state. */
  function LaxityOf(s: Snapshot, t: Slot, now: u32): (r: Snapshot)
    requires Shaped(s)
    ensures Shaped(r) && r.ts[t].laxity == Laxity(s.ts[t], now)
  {
    s.(ts := s.ts[t := s.ts[t].(laxity := Laxity(s.ts[t], now))])
  }

  /** The metric recalculations change no role, so they keep the invariant. */
  lemma MetricsKeep(s: Snapshot, t: Slot, now: u32, u: Slot)
    requires ConsistentBut(s, t)
    ensures ConsistentBut(Laxities(s, now), t) && ConsistentBut(Urgencies(s), t)
    ensures ConsistentBut(Utilities(s), t) && ConsistentBut(EPriorities(s), t)
    ensures ConsistentBut(LaxityOf(s, u, now), t)
    ensures forall i: Slot :: RoleOf(Laxities(s, now).ts[i]) == RoleOf(s.ts[i])
    ensures forall i: Slot :: RoleOf(Urgencies(s).ts[i]) == RoleOf(s.ts[i])
    ensures forall i: Slot :: RoleOf(Utilities(s).ts[i]) == RoleOf(s.ts[i])
    ensures forall i: Slot :: RoleOf(EPriorities(s).ts[i]) == RoleOf(s.ts[i])
    ensures forall i: Slot :: RoleOf(LaxityOf(s, u, now).ts[i]) == RoleOf(s.ts[i])
  {
    forall i: Slot
      ensures RoleOf(Laxities(s, now).ts[i]) == RoleOf(s.ts[i])
      ensures RoleOf(Urgencies(s).ts[i]) == RoleOf(s.ts[i])
      ensures RoleOf(Utilities(s).ts[i]) == RoleOf(s.ts[i])
      ensures RoleOf(EPriorities(s).ts[i]) == RoleOf(s.ts[i])
    {
      WithLaxitiesTouchesOnlyLaxity(s.ts, now, i);
      WithUrgenciesTouchesOnlySpare4(s.ts, i);
      WithUtilitiesTouchesOnlyUtil(s.ts, i);
      WithEPrioritiesTouchesOnlyEPriority(s.ts, i);
    }
    RolesKept(s, Laxities(s, now).ts, t);
    RolesKept(s, Urgencies(s).ts, t);
    RolesKept(s, Utilities(s).ts, t);
    RolesKept(s, EPriorities(s).ts, t);
    RolesKept(s, LaxityOf(s, u, now).ts, t);
  }

  // ----------------------------------------------------------------------
  // How the queue operations move one task

  /** Linking an unqueued task into a queue keeps the others consistent and adds that one membership. */
  lemma InsertedBut(s: Snapshot, h: Queue, task: Slot, o: Order)
    requires ConsistentBut(s, task) && task != 0 && Unqueued(s.lists, h.Link(), task)
    ensures ConsistentBut(Inserted(s, h, task, o), task)
    ensures Memberships(Inserted(s, h, task, o).lists, task) == Memberships(s.lists, task)[h.Index() := true]
    ensures forall i: Slot :: i != task ==> Memberships(Inserted(s, h, task, o).lists, i) == Memberships(s.lists, i)
  {
    var l := s.lists[h.Index()];
    var k := InsertIndex(o, s.ts, l, s.ts[task]);
    var r := Inserted(s, h, task, o);
    InsertKeepsQueuesOk(s.ls, s.hs, s.lists, h, task, k);
    forall i: Slot ensures Memberships(r.lists, i) == if i == task then Memberships(s.lists, i)[h.Index() := true] else Memberships(s.lists, i)
    {
      InsertedMemberships(s.lists, h, task, k, i);
    }
    ButLists(s, r.ls, r.hs, r.lists, task);
  }

  /** Taking the head off a q0 queue keeps the others consistent and drops that one membership. */
  lemma FirstOutBut(s: Snapshot, h: Queue)
    requires Shaped(s) && h.Link() == Q0 && s.lists[h.Index()] != []
    requires ConsistentBut(s, s.lists[h.Index()][0])
    ensures var t := s.lists[h.Index()][0];
      && t != 0
      && ConsistentBut(FirstOut(s, h), t)
      && Memberships(FirstOut(s, h).lists, t) == Memberships(s.lists, t)[h.Index() := false]
      && (forall i: Slot :: i != t ==> Memberships(FirstOut(s, h).lists, i) == Memberships(s.lists, i))
  {
    var l := s.lists[h.Index()];
    var t := l[0];
    var r := FirstOut(s, h);
    assert Linked(s.ls, Q0, s.hs[h.Index()].Next(Q0), l);
    ExtractFirstKeepsQueuesOk(s.ls, s.hs, s.lists, h);
    forall i: Slot ensures Memberships(r.lists, i) == if i == t then Memberships(s.lists, i)[h.Index() := false] else Memberships(s.lists, i)
    {
      RemovedMemberships(s.lists, h, 0, i);
    }
    ButLists(s, r.ls, r.hs, r.lists, t);
  }

  /** Unlinking a member keeps the others consistent and drops that one membership. */
  lemma OutBut(s: Snapshot, h: Queue, task: Slot)
    requires ConsistentBut(s, task) && task in s.lists[h.Index()]
    ensures task != 0
    ensures ConsistentBut(Out(s, h, task), task)
    ensures Memberships(Out(s, h, task).lists, task) == Memberships(s.lists, task)[h.Index() := false]
    ensures forall i: Slot :: i != task ==> Memberships(Out(s, h, task).lists, i) == Memberships(s.lists, i)
  {
    var l := s.lists[h.Index()];
    var k := IndexOf(l, task);
    var r := Out(s, h, task);
    assert Linked(s.ls, h.Link(), s.hs[h.Index()].Next(h.Link()), l);
    UnlinkKeepsQueuesOk(s.ls, s.hs, s.lists, h, k);
    assert 0 !in l && Distinct(l);
    OutMemberships(s, h, task);
    ButLists(s, r.ls, r.hs, r.lists, task);
  }

  lemma OutMemberships(s: Snapshot, h: Queue, task: Slot)
    requires Shaped(s) && task in s.lists[h.Index()]
    requires 0 !in s.lists[h.Index()] && Distinct(s.lists[h.Index()])
    ensures Memberships(Out(s, h, task).lists, task) == Memberships(s.lists, task)[h.Index() := false]
    ensures forall i: Slot :: i != task ==> Memberships(Out(s, h, task).lists, i) == Memberships(s.lists, i)
  {
    var k := IndexOf(s.lists[h.Index()], task);
    var r := Out(s, h, task);
    forall i: Slot ensures Memberships(r.lists, i) == if i == task then Memberships(s.lists, i)[h.Index() := false] else Memberships(s.lists, i)
    {
      RemovedMemberships(s.lists, h, k, i);
    }
  }

  /** q1_extract keeps the others consistent, and afterwards the task is off the doubled-periods queue. */
  lemma Q1OutBut(s: Snapshot, task: Slot)
    requires ConsistentBut(s, task)
    ensures ConsistentBut(Q1Out(s, task), task)
    ensures Memberships(Q1Out(s, task).lists, task) == Memberships(s.lists, task)[Doubled.Index() := false]
    ensures forall i: Slot :: i != task ==> Memberships(Q1Out(s, task).lists, i) == Memberships(s.lists, i)
  {
    if task in s.lists[Doubled.Index()] {
      OutBut(s, Doubled, task);
    } else {
      assert Memberships(s.lists, task)[Doubled.Index() := false] == Memberships(s.lists, task);
    }
  }

  /** A task that is on none of the five q0 queues is free to be linked into one. */
  lemma Q0Free(lists: seq<seq<Slot>>, t: Slot)
    requires |lists| == NUM_OF_QUEUES
    requires var m := Memberships(lists, t); !m[0] && !m[1] && !m[2] && !m[4] && !m[5]
    ensures Unqueued(lists, Q0, t)
  {
    forall g: Queue | g.Link() == Q0 ensures t !in lists[g.Index()] {
      assert !Memberships(lists, t)[g.Index()];
    }
  }

  /** Linking the moving task into a queue where it then fits restores the whole invariant. */
  /** A task off the doubled-periods queue is free to be linked into it. */
  lemma Q1Free(lists: seq<seq<Slot>>, t: Slot)
    requires |lists| == NUM_OF_QUEUES && !Memberships(lists, t)[Doubled.Index()]
    ensures Unqueued(lists, Q1, t)
  {
    forall g: Queue | g.Link() == Q1 ensures t !in lists[g.Index()] {
      assert g == Doubled;
    }
  }

  /** A task off the lst queue is free to be linked into it. */
  lemma Q2Free(lists: seq<seq<Slot>>, t: Slot)
    requires |lists| == NUM_OF_QUEUES && !Memberships(lists, t)[Lst.Index()]
    ensures Unqueued(lists, Q2, t)
  {
    forall g: Queue | g.Link() == Q2 ensures t !in lists[g.Index()] {
      assert g == Lst;
    }
  }

  /** After a first insertion, a task that fits once also in queue `g` still does so. */
  lemma InsertedFitsAgain(s: Snapshot, h: Queue, t: Slot, o: Order, g: Queue)
    requires Shaped(s) && g != h
    requires Memberships(Inserted(s, h, t, o).lists, t) == Memberships(s.lists, t)[h.Index() := true]
    requires Fits(Memberships(s.lists, t)[h.Index() := true][g.Index() := true], RoleOf(s.ts[t]), t == s.running, s.alg)
    ensures var r := Inserted(s, h, t, o);
      && Memberships(r.lists, t)[g.Index()] == Memberships(s.lists, t)[g.Index()]
      && Fits(Memberships(r.lists, t)[g.Index() := true], RoleOf(r.ts[t]), t == r.running, r.alg)
  {
    QueueIndexInjective(g, h);
  }

  lemma InsertedFits(s: Snapshot, h: Queue, task: Slot, o: Order)
    requires ConsistentBut(s, task) && task != 0 && Unqueued(s.lists, h.Link(), task)
    requires Fits(Memberships(s.lists, task)[h.Index() := true], RoleOf(s.ts[task]), task == s.running, s.alg)
    ensures Consistent(Inserted(s, h, task, o))
    ensures task in Inserted(s, h, task, o).lists[h.Index()]
  {
    InsertedBut(s, h, task, o);
    var r := Inserted(s, h, task, o);
    assert SlotOk(r, task);
    ConsistentAgain(r, task);
  }

  /** q_extract_first on a q0 queue of a consistent state: what is known of its head afterwards. */
  lemma HeadOut(s: Snapshot, h: Queue)
    requires Consistent(s) && h.Link() == Q0 && s.lists[h.Index()] != []
    ensures var t := s.lists[h.Index()][0]; var r := FirstOut(s, h);
      && t != 0 && Fits(Memberships(s.lists, t), RoleOf(s.ts[t]), t == s.running, s.alg)
      && ConsistentBut(r, t) && Memberships(r.lists, t) == Memberships(s.lists, t)[h.Index() := false]
  {
    var t := s.lists[h.Index()][0];
    assert SlotOk(s, t);
    ConsistentForAllBut(s, t);
    FirstOutBut(s, h);
  }

  /** A new record for the moving task, followed by the laxity and urgency sweeps, keeps the others consistent. */
  lemma Renewed(s: Snapshot, t: Slot, rec: TaskRecord, now: u32)
    requires ConsistentBut(s, t)
    ensures var r := Urgencies(Laxities(WithRecord(s, t, rec), now));
      && ConsistentBut(r, t) && r.lists == s.lists && r.running == s.running && r.alg == s.alg
      && r.counters == s.counters && RoleOf(r.ts[t]) == RoleOf(rec)
  {
    var s2 := WithRecord(s, t, rec);
    ButRecord(s, t, rec);
    MetricsKeep(s2, t, now, t);
    MetricsKeep(Laxities(s2, now), t, now, t);
  }

  /** Any non-null task of a consistent state fits its memberships. */
  lemma MemberFits(s: Snapshot, t: Slot)
    requires Consistent(s) && t != 0
    ensures Fits(Memberships(s.lists, t), RoleOf(s.ts[t]), t == s.running, s.alg)
  {
    assert SlotOk(s, t);
  }

  /** q0_extract or q2_extract of a member of a consistent state: what is known of it afterwards. */
  lemma MemberOut(s: Snapshot, h: Queue, t: Slot)
    requires Consistent(s) && t in s.lists[h.Index()]
    ensures t != 0 && Fits(Memberships(s.lists, t), RoleOf(s.ts[t]), t == s.running, s.alg)
    ensures ConsistentBut(Out(s, h, t), t) && Memberships(Out(s, h, t).lists, t) == Memberships(s.lists, t)[h.Index() := false]
  {
    ConsistentForAllBut(s, t);
    OutBut(s, h, t);
    MemberFits(s, t);
  }

  /** The counter table plays no part in the invariant. */
  lemma ButCounters(s: Snapshot, t: Slot, c: seq<u32>)
    requires ConsistentBut(s, t) && |c| == TST_MAX_TST
    ensures ConsistentBut(s.(counters := c), t)
  {
    var s' := s.(counters := c);
    forall i: Slot | i != 0 && i != t ensures SlotOk(s', i)
    {
      assert SlotOk(s, i);
    }
  }

  /** A new record under which the moving task fits its memberships restores the whole invariant. */
  lemma RecordFits(s: Snapshot, t: Slot, rec: TaskRecord)
    requires ConsistentBut(s, t) && t != 0
    requires Fits(Memberships(s.lists, t), RoleOf(rec), t == s.running, s.alg)
    ensures Consistent(WithRecord(s, t, rec))
  {
    ButRecord(s, t, rec);
    assert SlotOk(WithRecord(s, t, rec), t);
  }

  /** Linking the moving task in and then giving it a record under which it fits restores the invariant. */
  lemma InsertedThenRecord(s: Snapshot, h: Queue, t: Slot, o: Order, rec: TaskRecord)
    requires ConsistentBut(s, t) && t != 0 && Unqueued(s.lists, h.Link(), t)
    requires Fits(Memberships(s.lists, t)[h.Index() := true], RoleOf(rec), t == s.running, s.alg)
    ensures Consistent(WithRecord(Inserted(s, h, t, o), t, rec))
  {
    InsertedBut(s, h, t, o);
    RecordFits(Inserted(s, h, t, o), t, rec);
  }

  // ----------------------------------------------------------------------
  // Searches of the removed and doubled-periods queues

  /**
   * removed_queue_has_task_with_lower_utility: the first task on the list
   * whose stored utility is at most `util`, or 0 when none is.
   */
  function RemovedFit(ts: seq<TaskRecord>, l: seq<Slot>, util: u16): (t: Slot)
    requires |ts| == NUM_OF_TASKS
    ensures t == 0 || (t in l && ts[t].taskUtil <= util)
    ensures 0 !in l ==> (t == 0 <==> forall x :: x in l ==> ts[x].taskUtil > util)
    ensures t != 0 ==> forall i :: 0 <= i < IndexOf(l, t) ==> ts[l[i]].taskUtil > util
  {
    if l == [] then 0
    else if ts[l[0]].taskUtil <= util then l[0]
    else RemovedFit(ts, l[1..], util)
  }

  /**
   * doubled_queue_has_task: the first task on the list whose stored utility
   * is at most `util` shifted left by the task's period multiplier, or 0.
   */
  function DoubledFit(ts: seq<TaskRecord>, l: seq<Slot>, util: u16): (t: Slot)
    requires |ts| == NUM_OF_TASKS
    ensures t == 0 || (t in l && ts[t].taskUtil <= Shl(util, ts[t].periodMultiplier))
    ensures 0 !in l ==> (t == 0 <==> forall x :: x in l ==> ts[x].taskUtil > Shl(util, ts[x].periodMultiplier))
    ensures t != 0 ==> forall i :: 0 <= i < IndexOf(l, t) ==> ts[l[i]].taskUtil > Shl(util, ts[l[i]].periodMultiplier)
  {
    if l == [] then 0
    else if ts[l[0]].taskUtil <= Shl(util, ts[l[0]].periodMultiplier) then l[0]
    else DoubledFit(ts, l[1..], util)
  }
}

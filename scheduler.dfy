// The scheduler object of scheduler.c as a class: the task arena (records and
// their link cells), the seven queue headers and the algorithm in force,
// updated in place by the queue engine and the stages of SCH_start. Every
// method is proved against the function of the snapshot that specifies it,
// so the invariant and ordering lemmas proved about those functions carry
// over to the object.

module SchedObject {
  import opened CTypes
  import opened Task
  import opened TestReport
  import opened Queues
  import opened Metrics
  import opened SchedState
  import opened SchedOps
  import opened SchedSteps
  import opened SchedPolicy
  import opened SchedAdapt
  import opened SchedTick
  import Utils

  class Scheduler {
    /** The task arena: `tasks[]` of task.c with its link fields kept in a column of their own. */
    const store: TaskStore
    /** The seven queue headers (`ready_tasks`, `idle_tasks`, ...), indexed by Queue.Index(). */
    const headers: array<Links>
    /** The list each header denotes, for the proofs. */
    ghost var lists: seq<seq<Slot>>
    /** The algorithm in force (`scheduling_algorithm`). */
    var alg: Algorithm

    ghost predicate Valid()
      reads this, store, store.report
    {
      store.Valid() && headers.Length == NUM_OF_QUEUES && |lists| == NUM_OF_QUEUES && headers != store.links
    }

    /**
     * SCH_init over a task arena: the headers are static records, so every
     * queue starts empty, and the algorithm variable starts as the first
     * algorithm, CYC.
     */
    constructor (store: TaskStore)
      requires store.Valid()
      ensures Valid() && this.store == store && fresh(headers)
      ensures alg == Cyc && lists == seq(NUM_OF_QUEUES, _ => [])
      ensures forall i :: 0 <= i < NUM_OF_QUEUES ==> headers[i] == NoLinks
    {
      this.store := store;
      headers := new Links[NUM_OF_QUEUES](_ => NoLinks);
      lists := seq(NUM_OF_QUEUES, _ => []);
      alg := Cyc;
    }

    /** The object's state as a snapshot. */
    ghost function Snap(): (s: Snapshot)
      requires Valid()
      reads this, store, store.report, store.tasks, store.links, headers, store.report.values
      ensures Shaped(s)
    {
      Snapshot(store.tasks[..], store.links[..], headers[..], lists, store.running, alg, store.report.values[..])
    }

    /** The lists of link set `q` are threaded through the arena from their headers. */
    ghost predicate LinkedOn(h: Queue)
      requires Valid()
      reads this, store, store.report, store.links, headers
    {
      Linked(store.links[..], h.Link(), headers[h.Index()].Next(h.Link()), lists[h.Index()])
    }

    /**
     * q0_insert, q1_insert and q2_insert: walk queue `h` from its header past
     * every task the new one goes behind in the order the algorithm `a` sets
     * for that link set, then link the task in where the walk stopped.
     */
    method Insert(task: Slot, h: Queue, a: Algorithm)
      requires Valid() && LinkedOn(h) && task !in lists[h.Index()]
      requires h.Link() == Q2 ==> task != 0
      modifies store.links, headers, this`lists
      ensures Valid()
      ensures Snap() == Inserted(old(Snap()), h, task, OrderOf(h.Link(), a))
    {
      var prev, next, k := Walk(task, h, OrderOf(h.Link(), a));
      LinkIn(task, h, prev, next);
      lists := InsertedLists(lists, h, task, k);
    }

    /** The walk of the insertions: it stops at the insertion index of the queue's list. */
    method Walk(task: Slot, h: Queue, o: Order) returns (prev: Slot, next: Slot, ghost k: nat)
      requires Valid() && LinkedOn(h)
      ensures var l := lists[h.Index()];
        && k == InsertIndex(o, store.tasks[..], l, store.tasks[task])
        && prev == Before(l, k) && next == At(l, k)
    {
      var q := h.Link();
      ghost var l := lists[h.Index()];
      prev := 0;
      next := headers[h.Index()].Next(q);
      k := 0;
      while next != 0 && Behind(o, store.tasks[task], store.tasks[next])
        invariant k <= |l| && prev == Before(l, k) && next == At(l, k)
        invariant forall i :: 0 <= i < k ==> Behind(o, store.tasks[task], store.tasks[l[i]])
        decreases |l| - k
      {
        assert k < |l| && l[k] == next;
        prev := next;
        next := store.links[next].Next(q);
        k := k + 1;
      }
      InsertIndexUnique(o, store.tasks[..], l, store.tasks[task], k);
    }

    /** The link writes of the insertions once the walk has stopped between `prev` and `next`. */
    method LinkIn(task: Slot, h: Queue, prev: Slot, next: Slot)
      requires Valid()
      modifies store.links, headers
      ensures var c := Splice(Cells(old(store.links[..]), old(headers[h.Index()])), h.Link(), task, prev, next);
        store.links[..] == c.ls && headers[..] == old(headers[..])[h.Index() := c.hd]
    {
      var q := h.Link();
      ghost var hs := headers[..];
      ghost var c := Splice(Cells(store.links[..], headers[h.Index()]), q, task, prev, next);
      if prev != 0 {
        store.links[prev] := store.links[prev].WithNext(q, task);
      } else {
        headers[h.Index()] := headers[h.Index()].WithNext(q, task);
      }
      assert headers[..] == hs[h.Index() := c.hd];
      ghost var ls1 := store.links[..];
      if next != 0 {
        store.links[next] := store.links[next].WithPrev(q, task);
        assert store.links[..] == SetPrev(ls1, q, next, task);
      }
      ghost var ls2 := store.links[..];
      store.links[task] := store.links[task].WithNext(q, next).WithPrev(q, prev);
      assert store.links[..] == SetPrev(SetNext(ls2, q, task, next), q, task, prev);
    }

    /**
     * q_extract_first on q0 queue `h`: a non-empty queue loses its head, whose
     * id is returned; an empty one returns 0 and is left alone.
     */
    method ExtractFirst(h: Queue) returns (id: Slot)
      requires Valid() && h.Link() == Q0 && LinkedOn(h)
      modifies store.links, headers, this`lists
      ensures Valid()
      ensures id == At(old(lists[h.Index()]), 0)
      ensures old(lists[h.Index()]) == [] ==> Snap() == old(Snap())
      ensures old(lists[h.Index()]) != [] ==> Snap() == FirstOut(old(Snap()), h)
    {
      id := headers[h.Index()].Next(Q0);
      if id != 0 {
        var n := store.links[id].Next(Q0);
        headers[h.Index()] := headers[h.Index()].WithNext(Q0, n);
        store.links[n] := store.links[n].WithPrev(Q0, 0);
        lists := RemovedLists(lists, h, 0);
      }
    }

    /**
     * The link writes of q0_extract and q2_extract: the predecessor (the
     * header when there is none) skips the task, the successor points back
     * past it, and the task's own two links are cleared.
     */
    method UnlinkFrom(task: Slot, h: Queue)
      requires Valid()
      modifies store.links, headers
      ensures var c := Unlink(Cells(old(store.links[..]), old(headers[h.Index()])), h.Link(), task);
        store.links[..] == c.ls && headers[..] == old(headers[..])[h.Index() := c.hd]
    {
      var q := h.Link();
      ghost var hs := headers[..];
      ghost var c := Unlink(Cells(store.links[..], headers[h.Index()]), q, task);
      var p := store.links[task].Prev(q);
      var n := store.links[task].Next(q);
      if p == 0 {
        headers[h.Index()] := headers[h.Index()].WithNext(q, n);
      } else {
        store.links[p] := store.links[p].WithNext(q, n);
      }
      assert headers[..] == hs[h.Index() := c.hd];
      ghost var ls1 := store.links[..];
      if n != 0 {
        store.links[n] := store.links[n].WithPrev(q, p);
        assert store.links[..] == SetPrev(ls1, q, n, p);
      }
      ghost var ls2 := store.links[..];
      store.links[task] := store.links[task].WithPrev(q, 0).WithNext(q, 0);
      assert store.links[..] == SetNext(SetPrev(ls2, q, task, 0), q, task, 0);
    }

    /**
     * q0_extract: the header is chosen by the task's state (ready for READY,
     * PREMPT and any state it does not name, removed for REMOVED, idle for
     * IDLE) and the task is unlinked from that queue wherever it stands.
     */
    method Q0Extract(task: Slot)
      requires Valid() && task in lists[ExtractHeader(store.tasks[task].state).Index()]
      modifies store.links, headers, this`lists
      ensures Valid()
      ensures Snap() == Out(old(Snap()), ExtractHeader(old(store.tasks[task].state)), task)
    {
      var state := store.tasks[task].state;
      var h := Queue.Ready;
      if state == TaskState.Ready || state == Preempted {
        h := Queue.Ready;
      } else if state == TaskState.Removed {
        h := Queue.Removed;
      } else if state == TaskState.Idle {
        h := Queue.Idle;
      }
      UnlinkFrom(task, h);
      lists := RemovedLists(lists, h, IndexOf(lists[h.Index()], task));
    }

    /**
     * q2_extract: the task is unlinked from the lst queue wherever it stands.
     * Slot 0 on an empty, well-formed lst queue has only null links, so its
     * unlinking writes nothing new.
     */
    method Q2Extract(task: Slot)
      requires Valid()
      requires task in lists[Lst.Index()] || (task == 0 && lists[Lst.Index()] == [] && QueuesOk(store.links[..], headers[..], lists))
      modifies store.links, headers, this`lists
      ensures Valid()
      ensures old(task in lists[Lst.Index()]) ==> Snap() == Out(old(Snap()), Lst, task)
      ensures old(task !in lists[Lst.Index()]) ==> Snap() == old(Snap())
    {
      if task !in lists[Lst.Index()] {
        NullUnlink(store.links[..], headers[..], lists);
      }
      UnlinkFrom(task, Lst);
      if task in lists[Lst.Index()] {
        lists := RemovedLists(lists, Lst, IndexOf(lists[Lst.Index()], task));
      }
    }

    /**
     * q1_extract on the doubled-periods queue: the header moves only when the
     * task is its first element; otherwise the predecessor's next link is
     * written, slot 0's when there is no predecessor. Under the queue
     * invariant a member leaves the queue and any other task changes nothing.
     */
    method Q1Extract(task: Slot)
      requires Valid() && QueuesOk(store.links[..], headers[..], lists)
      modifies store.links, headers, this`lists
      ensures Valid()
      ensures Snap() == Q1Out(old(Snap()), task)
    {
      ghost var s := Snap();
      UnlinkQ1From(task);
      Q1OutWrites(s, task);
      if task in lists[Doubled.Index()] {
        lists := RemovedLists(lists, Doubled, IndexOf(lists[Doubled.Index()], task));
      }
    }

    /** The link writes of q1_extract. */
    method UnlinkQ1From(task: Slot)
      requires Valid()
      modifies store.links, headers
      ensures var c := UnlinkQ1(Cells(old(store.links[..]), old(headers[Doubled.Index()])), task);
        store.links[..] == c.ls && headers[..] == old(headers[..])[Doubled.Index() := c.hd]
    {
      var h := Doubled.Index();
      var p := store.links[task].Prev(Q1);
      var n := store.links[task].Next(Q1);
      if p == 0 && headers[h].Next(Q1) == task {
        headers[h] := headers[h].WithNext(Q1, n);
      } else {
        store.links[p] := store.links[p].WithNext(Q1, n);
      }
      if n != 0 {
        store.links[n] := store.links[n].WithPrev(Q1, p);
      }
      store.links[task] := store.links[task].WithPrev(Q1, 0).WithNext(Q1, 0);
    }

    /**
     * SCH_reset_queues: the six links of tasks 1 to 7 and of every header are
     * cleared, so every queue is empty. Slot 0's links are not touched; when
     * they are clear already, the queue invariant holds afterwards.
     */
    method ResetQueues()
      requires Valid()
      modifies store.links, headers, this`lists
      ensures Valid()
      ensures store.links[0] == old(store.links[0])
      ensures forall i :: 1 <= i < NUM_OF_TASKS ==> store.links[i] == NoLinks
      ensures forall i :: 0 <= i < NUM_OF_QUEUES ==> headers[i] == NoLinks
      ensures lists == seq(NUM_OF_QUEUES, _ => [])
      ensures old(store.links[0]) == NoLinks ==> QueuesOk(store.links[..], headers[..], lists)
    {
      ClearLinks();
      ClearHeaders();
      lists := seq(NUM_OF_QUEUES, _ => []);
      EmptyQueuesOk(store.links[..], headers[..]);
    }

    /** The task loop of SCH_reset_queues: every slot but 0 leaves its queue. */
    method ClearLinks()
      requires Valid()
      modifies store.links
      ensures store.links[0] == old(store.links[0])
      ensures forall i :: 1 <= i < NUM_OF_TASKS ==> store.links[i] == NoLinks
    {
      for index := 1 to NUM_OF_TASKS
        invariant store.links[0] == old(store.links[0])
        invariant forall i :: 1 <= i < index ==> store.links[i] == NoLinks
      {
        store.links[index] := NoLinks;
      }
    }

    /** The header resets of SCH_reset_queues: every queue starts empty. */
    method ClearHeaders()
      requires Valid()
      modifies headers
      ensures forall i :: 0 <= i < NUM_OF_QUEUES ==> headers[i] == NoLinks
    {
      headers[Queue.Ready.Index()] := NoLinks;
      headers[Queue.Idle.Index()] := NoLinks;
      headers[Queue.Skipped.Index()] := NoLinks;
      headers[Lst.Index()] := NoLinks;
      headers[Queue.Removed.Index()] := NoLinks;
      headers[Queue.Waiting.Index()] := NoLinks;
      headers[Doubled.Index()] := NoLinks;
    }

    /** SCH_soft_reset: its task loop has an empty body, so it resets the queues. */
    method SoftReset()
      requires Valid()
      modifies store.links, headers, this`lists
      ensures Valid()
      ensures forall i :: 1 <= i < NUM_OF_TASKS ==> store.links[i] == NoLinks
      ensures forall i :: 0 <= i < NUM_OF_QUEUES ==> headers[i] == NoLinks
      ensures lists == seq(NUM_OF_QUEUES, _ => [])
      ensures old(store.links[0]) == NoLinks ==> QueuesOk(store.links[..], headers[..], lists)
    {
      ResetQueues();
    }

    /**
     * SCH_add_task: TSK_add_task loads template `testTaskId` into slot
     * `taskId`; a task with a non-zero id gets its duration estimate, is
     * queued WAITING (deadline = release) or IDLE in deadline order, and has
     * its not-skipped count set to its skip gap. Into a slot on no queue and
     * not running, the invariant is kept.
     */
    method AddTask(taskId: Slot, testTaskId: u8, templates: seq<StoredTask>)
      requires Valid() && Consistent(Snap()) && taskId != 0 && taskId != store.running
      requires forall h: Queue :: taskId !in lists[h.Index()]
      modifies store.tasks, store.links, headers, this`lists
      ensures Valid() && Consistent(Snap())
      ensures Snap() == Added(old(Snap()), taskId, testTaskId, templates)
    {
      ghost var s := Snap();
      Load(taskId, testTaskId, templates);
      ghost var s1 := Snap();
      LoadingBut(s, taskId, testTaskId, templates);
      AddedKeeps(s, taskId, testTaskId, templates);
      if store.tasks[taskId].id > 0 {
        var h := Admit(taskId);
        QueueLinked(s1, h);
        Insert(taskId, h, Edf);
        SetNotSkipped(taskId);
      }
    }

    /** The TSK_add_task call of SCH_add_task, on the object. */
    method Load(taskId: Slot, testTaskId: u8, templates: seq<StoredTask>)
      requires Valid()
      modifies store.tasks, store.links
      ensures Valid() && Snap() == Loading(old(Snap()), taskId, testTaskId, templates)
    {
      store.AddTask(testTaskId, taskId, templates);
    }

    /** The record writes of SCH_add_task before the task is queued; `h` is the queue it goes to. */
    method Admit(taskId: Slot) returns (h: Queue)
      requires Valid()
      modifies store.tasks
      ensures Valid() && h == AdmittedQueue(old(store.tasks[taskId]))
      ensures Snap() == WithRecord(old(Snap()), taskId, Admitted(old(store.tasks[taskId])))
    {
      var r := store.tasks[taskId];
      store.tasks[taskId] := r.(cDuration := r.duration);
      if r.release > 0 {
        store.tasks[taskId] := store.tasks[taskId].(state := TaskState.Waiting, absDline := r.release);
        h := Queue.Waiting;
      } else {
        store.tasks[taskId] := store.tasks[taskId].(state := TaskState.Idle);
        h := Queue.Idle;
      }
    }

    /** `NOT_SKIPPED(task) = (U8)SKIP_GAP(task)`. */
    method SetNotSkipped(taskId: Slot)
      requires Valid()
      modifies store.tasks
      ensures Valid()
      ensures Snap() == WithRecord(old(Snap()), taskId, old(store.tasks[taskId]).WithSpare2(Wrap8(old(store.tasks[taskId]).SkipGap() as int)))
    {
      store.tasks[taskId] := store.tasks[taskId].WithSpare2(Wrap8(store.tasks[taskId].SkipGap() as int));
    }

    // ----------------------------------------------------------------------
    // Metric sweeps over slots 1..7

    /** calculate_laxity: write and return the task's laxity, whatever its state. */
    method CalculateLaxity(task: Slot, now: u32) returns (l: u32)
      requires Valid()
      modifies store.tasks
      ensures Valid() && l == Laxity(old(store.tasks[task]), now)
      ensures Snap() == LaxityOf(old(Snap()), task, now)
    {
      var r := store.tasks[task];
      if r.absDline > Wrap32(now as int + r.timeLeft as int) {
        l := r.absDline - Wrap32(now as int + r.timeLeft as int);
      } else {
        l := 0;
      }
      store.tasks[task] := r.(laxity := l);
    }

    /** calculate_all_laxities: every task in a laxity state gets a fresh laxity. */
    method CalculateAllLaxities(now: u32)
      requires Valid()
      modifies store.tasks
      ensures Valid() && Snap() == Laxities(old(Snap()), now)
    {
      ghost var ts := store.tasks[..];
      for index := 1 to NUM_OF_TASKS
        invariant Valid()
        invariant store.tasks[..] == WithLaxities(ts, now)[..index] + ts[index..]
      {
        ghost var before := store.tasks[..];
        assert before[index] == ts[index];
        if LaxityState(store.tasks[index].state) {
          var _ := CalculateLaxity(index, now);
        }
        SweepStep(before, store.tasks[..], WithLaxities(ts, now), ts, index);
      }
      assert store.tasks[..] == WithLaxities(ts, now);
    }

    /** calculate_muf_urgency: write the task's MUF_URGENCY word. */
    method CalculateMufUrgency(task: Slot)
      requires Valid()
      modifies store.tasks
      ensures Valid()
      ensures Snap() == WithRecord(old(Snap()), task, old(store.tasks[task]).WithMufUrgency(Urgency(old(store.tasks[task]))))
    {
      var r := store.tasks[task];
      store.tasks[task] := r.WithMufUrgency(Urgency(r));
    }

    /** calculate_all_muf_urgencies: every task in a laxity state gets a fresh MUF_URGENCY. */
    method CalculateAllMufUrgencies()
      requires Valid()
      modifies store.tasks
      ensures Valid() && Snap() == Urgencies(old(Snap()))
    {
      ghost var ts := store.tasks[..];
      for index := 1 to NUM_OF_TASKS
        invariant Valid()
        invariant store.tasks[..] == WithUrgencies(ts)[..index] + ts[index..]
      {
        ghost var before := store.tasks[..];
        assert before[index] == ts[index];
        if LaxityState(store.tasks[index].state) {
          CalculateMufUrgency(index);
        }
        SweepStep(before, store.tasks[..], WithUrgencies(ts), ts, index);
      }
      assert store.tasks[..] == WithUrgencies(ts);
    }

    /**
     * get_lowest_priority_active_task: the removable task of the largest
     * priority number, the first among equals, or 0 when there is none.
     */
    method LowestPriorityActiveTask() returns (t: Slot)
      requires Valid()
      ensures t == LowestActive(store.tasks[..])
      ensures t == 0 <==> forall i :: 1 <= i < NUM_OF_TASKS ==> !Removable(store.tasks[i])
      ensures t != 0 ==> Removable(store.tasks[t])
      ensures forall i :: 1 <= i < NUM_OF_TASKS && Removable(store.tasks[i]) ==> store.tasks[i].priority <= store.tasks[t].priority
    {
      var lowestPriority: u8 := 0;
      t := 0;
      for index := 1 to NUM_OF_TASKS
        invariant (t, lowestPriority) == LowestUpTo(store.tasks[..], index)
      {
        var r := store.tasks[index];
        if UtilityState(r.state) && r.priority > lowestPriority && r.periodMultiplier == 0 && r.PeriodFlexible() == 1 {
          lowestPriority := r.priority;
          t := index;
        }
      }
      LowestActivePicks(store.tasks[..]);
    }

    /** calculate_active_task_priority: write the task's enhanced priority. */
    method CalculateActiveTaskPriority(task: Slot)
      requires Valid()
      modifies store.tasks
      ensures Valid()
      ensures Snap() == WithRecord(old(Snap()), task, old(store.tasks[task]).(ePriority := EPriority(old(store.tasks[task]))))
    {
      var r := store.tasks[task];
      store.tasks[task] := r.(ePriority := EPriority(r));
    }

    /**
     * get_active_task_priority: enhanced priorities written for slots 1..7,
     * then the doublable task of the smallest enhanced priority, or 0.
     */
    method ActiveTaskPriority() returns (t: Slot)
      requires Valid()
      modifies store.tasks
      ensures Valid() && Snap() == EPriorities(old(Snap()))
      ensures t == ActiveCandidate(old(store.tasks[..]))
    {
      ghost var ts := store.tasks[..];
      var lowestPriority: u8 := 0xFF;
      t := 0;
      for index := 1 to NUM_OF_TASKS
        invariant Valid()
        invariant store.tasks[..] == WithEPriorities(ts)[..index] + ts[index..]
        invariant (t, lowestPriority) == ActiveUpTo(WithEPriorities(ts), index)
      {
        ghost var before := store.tasks[..];
        assert before[index] == ts[index];
        CalculateActiveTaskPriority(index);
        SweepStep(before, store.tasks[..], WithEPriorities(ts), ts, index);
        var r := store.tasks[index];
        if DoublingState(r.state) && r.PeriodFlexible() != 0 && r.ePriority < lowestPriority {
          lowestPriority := r.ePriority;
          t := index;
        }
      }
      assert store.tasks[..] == WithEPriorities(ts);
    }

    /** calculate_task_utility: write and return the task's utility. */
    method CalculateTaskUtility(task: Slot) returns (u: u16)
      requires Valid()
      modifies store.tasks
      ensures Valid() && u == TaskUtility(old(store.tasks[task]))
      ensures Snap() == WithRecord(old(Snap()), task, old(store.tasks[task]).(taskUtil := u))
    {
      var r := store.tasks[task];
      u := TaskUtility(r);
      if u != r.taskUtil {
        store.tasks[task] := r.(taskUtil := u);
      }
    }

    /**
     * calculate_all_task_utilities: every task in a utility state gets a
     * fresh utility, and the sum of their contributions is returned in U16.
     */
    method CalculateAllTaskUtilities() returns (u: u16)
      requires Valid()
      modifies store.tasks
      ensures Valid() && Snap() == Utilities(old(Snap()))
      ensures u == SetUtility(WithUtilities(old(store.tasks[..])))
    {
      ghost var ts := store.tasks[..];
      u := 0;
      for index := 1 to NUM_OF_TASKS
        invariant Valid()
        invariant store.tasks[..] == WithUtilities(ts)[..index] + ts[index..]
        invariant u == Wrap16(UtilitySum(WithUtilities(ts), index))
      {
        u := UtilityPass(ts, index, u);
      }
      assert store.tasks[..] == WithUtilities(ts);
    }

    /** One pass of the loop of calculate_all_task_utilities, over slot `index`. */
    method UtilityPass(ghost ts: seq<TaskRecord>, index: Slot, u: u16) returns (u': u16)
      requires Valid() && |ts| == NUM_OF_TASKS && 1 <= index
      requires store.tasks[..] == WithUtilities(ts)[..index] + ts[index..]
      requires u == Wrap16(UtilitySum(WithUtilities(ts), index))
      modifies store.tasks
      ensures Valid()
      ensures store.tasks[..] == WithUtilities(ts)[..index + 1] + ts[index + 1..]
      ensures u' == Wrap16(UtilitySum(WithUtilities(ts), index + 1))
    {
      ghost var before, w := store.tasks[..], WithUtilities(ts)[index];
      assert before[index] == ts[index];
      u' := u;
      if UtilityState(store.tasks[index].state) {
        var c := RefreshUtility(index);
        assert store.tasks[index] == w && c == Contribution(w, w.taskUtil);
        u' := Wrap16(u as int + c);
      }
      SweepStep(before, store.tasks[..], WithUtilities(ts), ts, index);
      UtilitySumStep(WithUtilities(ts), index, u, u');
    }

    /** The body of calculate_all_task_utilities for an active task: its utility refreshed and its contribution. */
    method RefreshUtility(task: Slot) returns (c: nat)
      requires Valid()
      modifies store.tasks
      ensures Valid()
      ensures var r := old(store.tasks[task]).(taskUtil := TaskUtility(old(store.tasks[task])));
        Snap() == WithRecord(old(Snap()), task, r) && c == Contribution(r, r.taskUtil)
    {
      var util := CalculateTaskUtility(task);
      if store.tasks[task].PeriodFlexible() == 1 {
        c := Shr(util, store.tasks[task].periodMultiplier);
      } else {
        c := util;
      }
    }

    /** get_task_set_utility: the stored contributions of the active tasks, summed. */
    method TaskSetUtility() returns (u: u16)
      requires Valid()
      ensures u == SetUtility(store.tasks[..])
    {
      var sum: u32 := 0;
      for index := 1 to NUM_OF_TASKS
        invariant sum as nat == UtilitySum(store.tasks[..], index) <= (index as nat) * 0xFFFF
      {
        var r := store.tasks[index];
        if UtilityState(r.state) {
          sum := sum + Contribution(r, r.taskUtil) as u32;
        }
      }
      u := Wrap16(sum as int);
    }

    // ----------------------------------------------------------------------
    // The sweeps of SCH_start over the waiting and idle queues

    /**
     * The loop test of the sweeps: q_empty on q0 queue `h`, and then whether
     * the deadline of the task q_first_id names has come.
     */
    method HeadDue(h: Queue, now: u32) returns (due: bool)
      requires Valid() && Consistent(Snap()) && h.Link() == Q0
      ensures due == Due(Snap(), h, now)
    {
      QueueLinked(Snap(), h);
      QueriesReadList(store.links[..], Q0, headers[h.Index()], lists[h.Index()]);
      if QEmpty(0, headers[h.Index()]) {
        due := false;
      } else {
        var task := QFirstId(0, headers[h.Index()]);
        due := store.tasks[task].absDline <= now;
      }
    }

    /** One pass of process_waiting_tasks: the waiting head becomes IDLE and joins the idle queue. */
    method WaitingPass(now: u32)
      requires Valid() && Consistent(Snap()) && Due(Snap(), Queue.Waiting, now)
      modifies store.tasks, store.links, headers, this`lists
      ensures Valid() && Snap() == WaitingStep(old(Snap()), now)
    {
      ghost var s := Snap();
      QueueLinked(s, Queue.Waiting);
      var task := ExtractFirst(Queue.Waiting);
      store.tasks[task] := store.tasks[task].(state := TaskState.Idle);
      CalculateAllLaxities(now);
      CalculateAllMufUrgencies();
      WaitingPassQueues(s, now);
      QueueLinked(Snap(), Queue.Idle);
      Insert(task, Queue.Idle, Edf);
    }

    /** process_waiting_tasks: waiting tasks whose deadline has come move to the idle queue. */
    method ProcessWaitingTasks(now: u32)
      requires Valid() && Consistent(Snap())
      modifies store.tasks, store.links, headers, this`lists
      ensures Valid() && Snap() == ProcessWaiting(old(Snap()), now)
    {
      var due := HeadDue(Queue.Waiting, now);
      while due
        invariant Valid() && Consistent(Snap()) && due == Due(Snap(), Queue.Waiting, now)
        invariant ProcessWaiting(Snap(), now) == ProcessWaiting(old(Snap()), now)
        decreases |lists[Queue.Waiting.Index()]|
      {
        WaitingStepKeeps(Snap(), now);
        WaitingPass(now);
        due := HeadDue(Queue.Waiting, now);
      }
    }

    /** The writes of process_idle_tasks that renew the idle head's instance. */
    method Release(task: Slot)
      requires Valid()
      modifies store.tasks
      ensures Valid() && Snap() == WithRecord(old(Snap()), task, Released(old(store.tasks[task])))
    {
      var r := store.tasks[task];
      if r.PeriodFlexible() == 1 {
        r := r.(absDline := Wrap32(r.absDline as int + Wrap32(Shl(r.relDline as nat, r.periodMultiplier as nat))));
      } else {
        r := r.(absDline := Wrap32(r.absDline as int + r.relDline as int));
      }
      store.tasks[task] := r.(timeLeft := r.cDuration, state := TaskState.Ready);
    }

    /**
     * One pass of process_idle_tasks: the idle head is renewed, queued as
     * ready and, under ADAP-5 and ADAP-6, also in the lst queue.
     */
    method IdlePass(now: u32)
      requires Valid() && Consistent(Snap()) && Due(Snap(), Queue.Idle, now)
      modifies store.tasks, store.links, headers, this`lists
      ensures Valid() && Snap() == IdleStep(old(Snap()), now)
    {
      ghost var s := Snap();
      var task := ReleaseHead(now);
      IdlePassQueues(s, now);
      QueueReady(task);
    }

    /**
     * The insertions that put a task back among the ready ones: the ready
     * queue in the order of the algorithm in force and, under ADAP-5 and
     * ADAP-6, the lst queue by laxity.
     */
    method QueueReady(task: Slot)
      requires Valid() && QueuesOk(store.links[..], headers[..], lists)
      requires task != 0 && Unqueued(lists, Q0, task) && (MirrorsLst(alg) ==> task !in lists[Lst.Index()])
      modifies store.links, headers, this`lists
      ensures Valid()
      ensures var s2 := Inserted(old(Snap()), Queue.Ready, task, Q0Order(alg));
        Snap() == if MirrorsLst(alg) then Inserted(s2, Lst, task, Q2Order(Llf)) else s2
    {
      ghost var s := Snap();
      QueueLinked(s, Queue.Ready);
      Insert(task, Queue.Ready, alg);
      if alg == Adap05 || alg == Adap06 {
        InsertedQueuesOk(s, Queue.Ready, task, Q0Order(alg));
        QueueLinked(Snap(), Lst);
        Insert(task, Lst, Llf);
      }
    }

    /** The release of the idle head in process_idle_tasks, before it is queued. */
    method ReleaseHead(now: u32) returns (task: Slot)
      requires Valid() && Consistent(Snap()) && Due(Snap(), Queue.Idle, now)
      modifies store.tasks, store.links, headers, this`lists
      ensures Valid() && task == old(lists[Queue.Idle.Index()][0])
      ensures Snap() == IdleReleased(old(Snap()), now)
    {
      QueueLinked(Snap(), Queue.Idle);
      task := ExtractFirst(Queue.Idle);
      Release(task);
      CalculateAllLaxities(now);
      CalculateAllMufUrgencies();
    }

    /** process_idle_tasks: idle tasks whose deadline has come become ready. */
    method ProcessIdleTasks(now: u32)
      requires Valid() && Consistent(Snap())
      modifies store.tasks, store.links, headers, this`lists
      ensures Valid() && Snap() == ProcessIdle(old(Snap()), now)
    {
      var due := HeadDue(Queue.Idle, now);
      while due
        invariant Valid() && Consistent(Snap()) && due == Due(Snap(), Queue.Idle, now)
        invariant ProcessIdle(Snap(), now) == ProcessIdle(old(Snap()), now)
        decreases |lists[Queue.Idle.Index()]|
      {
        IdleStepKeeps(Snap(), now);
        IdlePass(now);
        due := HeadDue(Queue.Idle, now);
      }
    }

    // ----------------------------------------------------------------------
    // Handing the processor over

    /** One record of the arena overwritten. */
    method SetRecord(task: Slot, r: TaskRecord)
      requires Valid()
      modifies store.tasks
      ensures Valid() && Snap() == WithRecord(old(Snap()), task, r)
    {
      store.tasks[task] := r;
    }

    /** `running_task_id` overwritten. */
    method SetRunning(id: Slot)
      requires Valid()
      modifies store`running
      ensures Valid() && Snap() == old(Snap()).(running := id)
    {
      store.running := id;
    }

    /** TST_incr_test_report_value on the object's report table. */
    method CountReport(c: Counter)
      requires Valid()
      modifies store.report.values
      ensures Valid() && Snap() == old(Snap()).(counters := Counted(old(Snap()).counters, c, 1))
    {
      store.report.Incr(c);
      assert store.report.values[..] == Counted(old(store.report.values[..]), c, 1);
    }

    /**
     * preempt_task on the running task: it becomes PREMPT with its count and
     * the report's pre-emption count up by one, goes back among the ready
     * tasks, and nothing runs afterwards.
     */
    method PreemptTask()
      requires Valid() && Consistent(Snap()) && store.running != 0
      modifies store.tasks, store.links, headers, this`lists, store`running, store.report.values
      ensures Valid() && Snap() == Preempt(old(Snap()))
    {
      ghost var s := Snap();
      var task := store.running;
      SetRecord(task, PreemptedRecord(store.tasks[task]));
      CountReport(Preempts);
      PreemptQueues(s);
      ghost var u := Snap();
      QueueReady(task);
      SetRunning(0);
      ReadyQueuedRunning(u, task);
    }

    /**
     * dispatch_next_task with nothing running: the head of the ready queue
     * (0 when it is empty) becomes the running id and leaves the lst queue
     * under ADAP-5/6; a real task becomes RUN with NOT_SKIPPED lowered.
     */
    method DispatchNextTask()
      requires Valid() && Consistent(Snap()) && store.running == 0
      modifies store.tasks, store.links, headers, this`lists, store`running
      ensures Valid() && Snap() == Dispatch(old(Snap()))
    {
      ghost var s := Snap();
      var id := TakeHead();
      ghost var s1 := Snap();
      if alg == Adap05 || alg == Adap06 {
        DispatchQueues(s);
        Q2Extract(id);
      }
      DispatchSteps(s, id, s1, Snap());
      if id > 0 {
        SetRecord(id, DispatchedRecord(store.tasks[id]));
      }
    }

    /** `running_task_id = q_extract_first(ready_tasks)`. */
    method TakeHead() returns (id: Slot)
      requires Valid() && QueuesOk(store.links[..], headers[..], lists)
      modifies store.links, headers, this`lists, store`running
      ensures Valid() && id == At(old(lists[Queue.Ready.Index()]), 0)
      ensures old(lists[Queue.Ready.Index()]) == [] ==> Snap() == old(Snap()).(running := 0)
      ensures old(lists[Queue.Ready.Index()]) != [] ==> Snap() == FirstOut(old(Snap()), Queue.Ready).(running := id)
    {
      QueueLinked(Snap(), Queue.Ready);
      id := ExtractFirst(Queue.Ready);
      SetRunning(id);
    }

    /**
     * skip_first_task: the head of the ready queue moves to the skipped
     * queue in the policy's order and gets the skipped record.
     */
    method SkipFirstTask(now: u32)
      requires Valid() && Consistent(Snap()) && lists[Queue.Ready.Index()] != [] && alg == EdfRto
      modifies store.tasks, store.links, headers, this`lists
      ensures Valid() && Snap() == SkipFirst(old(Snap()), now)
    {
      ghost var s := Snap();
      QueueLinked(s, Queue.Ready);
      var id := ExtractFirst(Queue.Ready);
      SkipFirstQueues(s, now);
      QueueLinked(Snap(), Queue.Skipped);
      Insert(id, Queue.Skipped, alg);
      SetRecord(id, SkippedRecord(store.tasks[id], now));
    }

    // ----------------------------------------------------------------------
    // The restoring stages of SCH_start: removed tasks and doubled periods

    /**
     * removed_queue_has_task_with_lower_utility: the walk along the removed
     * queue stops at the first task whose stored utility fits in `util`; it
     * returns that task, or 0 when the walk runs off the end.
     */
    method RemovedQueueFit(util: u16) returns (t: Slot)
      requires Valid() && Consistent(Snap())
      ensures t == RemovedFit(store.tasks[..], lists[Queue.Removed.Index()], util)
    {
      QueueLinked(Snap(), Queue.Removed);
      ghost var l := lists[Queue.Removed.Index()];
      ghost var ts := store.tasks[..];
      var p := headers[Queue.Removed.Index()].Next(Q0);
      ghost var k := 0;
      while p != 0 && store.tasks[p].taskUtil > util
        invariant k <= |l| && p == At(l, k)
        invariant RemovedFit(ts, l[k..], util) == RemovedFit(ts, l, util)
        decreases |l| - k
      {
        assert k < |l| && l[k] == p && l[k..][1..] == l[k + 1..];
        p := store.links[p].Next(Q0);
        k := k + 1;
      }
      if store.tasks[p].taskUtil <= util {
        t := p;
      } else {
        t := 0;
      }
      assert k < |l| ==> l[k] in l;
    }

    /** One pass of process_removed_tasks: the task leaves the removed queue, IDLE from now, into the idle queue. */
    method RemovedPass(task: Slot, now: u32)
      requires Valid() && Consistent(Snap())
      requires task in lists[Queue.Removed.Index()] && store.tasks[task].state == TaskState.Removed
      modifies store.tasks, store.links, headers, this`lists
      ensures Valid() && Snap() == RemovedStep(old(Snap()), now, task)
    {
      ghost var s := Snap();
      Q0Extract(task);
      SetRecord(task, store.tasks[task].(state := TaskState.Idle, absDline := now));
      RemovedPassQueues(s, now, task);
      QueueLinked(Snap(), Queue.Idle);
      Insert(task, Queue.Idle, Edf);
    }

    /**
     * process_removed_tasks: under ADAP-2, while the set utility is below
     * MAX_EDF_UTIL and a removed task fits in the spare utility found before
     * the loop, that task is restored to the idle queue.
     */
    method ProcessRemovedTasks(now: u32)
      requires Valid() && Consistent(Snap())
      modifies store.tasks, store.links, headers, this`lists
      ensures Valid() && Snap() == ProcessRemoved(old(Snap()), now)
    {
      if alg == Adap02 {
        var util := TaskSetUtility();
        var spare := Wrap16(MAX_EDF_UTIL - util as int);
        var task := RemovedQueueFit(spare);
        while util as nat < MAX_EDF_UTIL && task > 0
          invariant Valid() && Consistent(Snap()) && alg == Adap02
          invariant task == RemovedFit(store.tasks[..], lists[Queue.Removed.Index()], spare)
          invariant RemovedLoop(Snap(), now, util, spare) == ProcessRemoved(old(Snap()), now)
          decreases |lists[Queue.Removed.Index()]|
        {
          MemberFits(Snap(), task);
          RemovedStepKeeps(Snap(), now, task);
          RemovedPass(task, now);
          util := TaskSetUtility();
          task := RemovedQueueFit(spare);
        }
      }
    }

    /**
     * doubled_queue_has_task: the walk along the doubled-periods queue stops
     * at the first task whose stored utility is at most `util` shifted left
     * by its multiplier; it returns that task, or 0.
     */
    method DoubledQueueFit(util: u16) returns (t: Slot)
      requires Valid() && Consistent(Snap())
      ensures t == DoubledFit(store.tasks[..], lists[Doubled.Index()], util)
    {
      QueueLinked(Snap(), Doubled);
      ghost var l := lists[Doubled.Index()];
      ghost var ts := store.tasks[..];
      var n := headers[Doubled.Index()].Next(Q1);
      var multiplier := store.tasks[n].periodMultiplier;
      ghost var k := 0;
      while n != 0 && store.tasks[n].taskUtil > Shl(util, multiplier)
        invariant k <= |l| && n == At(l, k) && multiplier == store.tasks[n].periodMultiplier
        invariant DoubledFit(ts, l[k..], util) == DoubledFit(ts, l, util)
        decreases |l| - k
      {
        assert k < |l| && l[k] == n && l[k..][1..] == l[k + 1..];
        n := store.links[n].Next(Q1);
        multiplier := store.tasks[n].periodMultiplier;
        k := k + 1;
      }
      if store.tasks[n].taskUtil <= Shl(util, multiplier) {
        t := n;
      } else {
        t := 0;
      }
      assert k < |l| ==> l[k] in l;
    }

    /** One ADAP-4 pass: q1_extract from the doubled-periods queue, then half_task_period. */
    method HalvePass(task: Slot)
      requires Valid() && Consistent(Snap()) && task in lists[Doubled.Index()]
      modifies store.tasks, store.links, headers, this`lists
      ensures Valid() && Snap() == HalveStep(old(Snap()), task)
    {
      Q1Extract(task);
      SetRecord(task, PeriodHalved(store.tasks[task]));
    }

    /**
     * One ADAP-6/7 pass: q1_extract and half_task_period; a task still
     * doubled gets its enhanced priority and goes back into the queue.
     */
    method RehalvePass(task: Slot)
      requires Valid() && Consistent(Snap()) && task in lists[Doubled.Index()]
      modifies store.tasks, store.links, headers, this`lists
      ensures Valid() && Snap() == RehalveStep(old(Snap()), task)
    {
      ghost var s := Snap();
      Q1Extract(task);
      var h := PeriodHalved(store.tasks[task]);
      if h.periodMultiplier > 0 {
        SetRecord(task, h.(ePriority := EPriority(h)));
        RehalvePassQueues(s, task);
        QueueLinked(Snap(), Doubled);
        Insert(task, Doubled, Adap07);
      } else {
        SetRecord(task, h);
      }
    }

    /**
     * process_doubled_periods: ADAP-4 restores doubled tasks against the
     * stored utilities; ADAP-6 and ADAP-7 recalculate every utility first
     * and after each pass, and put a task still doubled back in the queue.
     */
    method ProcessDoubledPeriods()
      requires Valid() && Consistent(Snap())
      modifies store.tasks, store.links, headers, this`lists
      ensures Valid() && Snap() == ProcessDoubled(old(Snap()))
    {
      if alg == Adap04 {
        RestoreHalving();
      } else if alg == Adap06 || alg == Adap07 {
        RestoreRehalving();
      }
    }

    /** The ADAP-4 branch of process_doubled_periods, against the stored utilities. */
    method RestoreHalving()
      requires Valid() && Consistent(Snap()) && alg == Adap04
      modifies store.tasks, store.links, headers, this`lists
      ensures Valid() && Snap() == ProcessDoubled(old(Snap()))
    {
      var util := TaskSetUtility();
      if MAX_EDF_UTIL > util as nat {
        var task := DoubledQueueFit(Spare(util));
        while util as nat < MAX_EDF_UTIL && task != 0
          invariant Valid() && Consistent(Snap())
          invariant util == SetUtility(store.tasks[..])
          invariant util as nat < MAX_EDF_UTIL ==> task == DoubledFit(store.tasks[..], lists[Doubled.Index()], Spare(util))
          invariant alg == Adap04 && Doubled4Loop(Snap()) == ProcessDoubled(old(Snap()))
          decreases |lists[Doubled.Index()]|
        {
          HalveStepKeeps(Snap(), task);
          HalvePass(task);
          util := TaskSetUtility();
          if MAX_EDF_UTIL > util as nat {
            task := DoubledQueueFit(Spare(util));
          }
        }
      }
    }

    /** The ADAP-6/7 branch of process_doubled_periods, with the utilities recalculated before each test. */
    method RestoreRehalving()
      requires Valid() && Consistent(Snap()) && (alg == Adap06 || alg == Adap07)
      modifies store.tasks, store.links, headers, this`lists
      ensures Valid() && Snap() == ProcessDoubled(old(Snap()))
    {
      MetricsKeep(Snap(), 0, 0, 0);
      var util := CalculateAllTaskUtilities();
      if MAX_EDF_UTIL > util as nat {
        var task := DoubledQueueFit(Spare(util));
        while util as nat < MAX_EDF_UTIL && task != 0
          invariant Valid() && Consistent(Snap())
          invariant util == SetUtility(store.tasks[..])
          invariant util as nat < MAX_EDF_UTIL ==> task == DoubledFit(store.tasks[..], lists[Doubled.Index()], Spare(util))
          invariant (alg == Adap06 || alg == Adap07) && Doubled67Loop(Snap()) == ProcessDoubled(old(Snap()))
          decreases DoubledWeight(store.tasks[..], lists[Doubled.Index()], NUM_OF_TASKS)
        {
          util, task := RehalveRound(task);
        }
      }
    }

    /** One pass of the ADAP-6/7 loop and the loop's next test values: fresh utilities, set utility, next task. */
    method RehalveRound(task: Slot) returns (util: u16, next: Slot)
      requires Valid() && Consistent(Snap()) && task in lists[Doubled.Index()]
      modifies store.tasks, store.links, headers, this`lists
      ensures Valid() && Consistent(Snap()) && Snap() == Utilities(RehalveStep(old(Snap()), task))
      ensures DoubledWeight(store.tasks[..], lists[Doubled.Index()], NUM_OF_TASKS)
              < old(DoubledWeight(store.tasks[..], lists[Doubled.Index()], NUM_OF_TASKS))
      ensures util == SetUtility(store.tasks[..])
      ensures util as nat < MAX_EDF_UTIL ==> next == DoubledFit(store.tasks[..], lists[Doubled.Index()], Spare(util))
    {
      RehalveTerminates(Snap(), task);
      RehalvePass(task);
      MetricsKeep(Snap(), 0, 0, 0);
      util := CalculateAllTaskUtilities();
      next := task;
      if MAX_EDF_UTIL > util as nat {
        next := DoubledQueueFit(Spare(util));
      }
    }

    // ----------------------------------------------------------------------
    // The policies of process_ready_tasks

    /** `q_first_id(ZERO_CPV, ready_tasks)`: the head of the ready queue, 0 when it is empty. */
    method FirstReady() returns (first: Slot)
      requires Valid() && Consistent(Snap())
      ensures first == Head(Snap())
    {
      QueueLinked(Snap(), Queue.Ready);
      QueriesReadList(store.links[..], Q0, headers[Queue.Ready.Index()], lists[Queue.Ready.Index()]);
      first := QFirstId(0, headers[Queue.Ready.Index()]);
    }

    /** `q_second_id(ZERO_CPV, ready_tasks)`: the task behind the head of the ready queue, 0 when there is none. */
    method SecondReady() returns (second: Slot)
      requires Valid() && Consistent(Snap())
      ensures second == Second(Snap())
    {
      QueueLinked(Snap(), Queue.Ready);
      QueriesReadList(store.links[..], Q0, headers[Queue.Ready.Index()], lists[Queue.Ready.Index()]);
      second := QSecondId(0, headers[Queue.Ready.Index()], store.links[..]);
    }

    /**
     * The hand-over every policy ends with: pre-empt the running task, if
     * there is one, then dispatch the next task in the ready queue.
     */
    method SwitchTask()
      requires Valid() && Consistent(Snap())
      modifies store.tasks, store.links, headers, this`lists, store`running, store.report.values
      ensures Valid() && Snap() == Switch(old(Snap()))
    {
      ghost var s := Snap();
      if store.running > 0 {
        PreemptKeeps(s);
        PreemptTask();
      }
      DispatchKeeps(Snap());
      DispatchNextTask();
    }

    /** The metric writes a policy makes before it reads the head of the ready queue. */
    method Prepare(now: u32)
      requires Valid() && Consistent(Snap())
      modifies store.tasks
      ensures Valid() && Snap() == Prepared(old(Snap()), now)
    {
      match alg
      case Drm =>
        var first := FirstReady();
        var _ := CalculateLaxity(first, now);
      case Muf =>
        CalculateAllLaxities(now);
        CalculateAllMufUrgencies();
      case Mmuf =>
        CalculateAllLaxities(now);
        CalculateAllMufUrgencies();
      case Mmmuf =>
        CalculateAllLaxities(now);
        CalculateAllMufUrgencies();
      case Llf =>
        CalculateAllLaxities(now);
      case Mllf =>
        CalculateAllLaxities(now);
      case _ =>
    }

    /**
     * schedule_rm/drm/irm/muf/mmuf/mmmuf/edf/spt/llf/mllf_algorithm: the
     * metric writes, then the policy's test on the head of the ready queue
     * and the running task, and the hand-over when the head wins.
     */
    method SchedulePolicy(now: u32)
      requires Valid() && Consistent(Snap())
      modifies store.tasks, store.links, headers, this`lists, store`running, store.report.values
      ensures Valid() && Snap() == Policy(old(Snap()), now)
    {
      ghost var s := Snap();
      Prepare(now);
      PreparedKeeps(s, now);
      var first := FirstReady();
      var run := store.running;
      if Beats(alg, store.tasks[first], store.tasks[run], run == 0) {
        SwitchTask();
      }
    }

    /** schedule_edf_algorithm, which every adaptive policy ends with. */
    method ScheduleEdf()
      requires Valid() && Consistent(Snap())
      modifies store.tasks, store.links, headers, this`lists, store`running, store.report.values
      ensures Valid() && Snap() == EdfPolicy(old(Snap()))
    {
      var first := FirstReady();
      var run := store.running;
      if store.tasks[first].absDline < store.tasks[run].absDline || run == 0 {
        SwitchTask();
      }
    }

    /**
     * schedule_skip_rto_algorithm: with nothing running, a skippable head
     * that cannot meet its deadline, or whose successor cannot, is skipped
     * before the dispatch; with a task running, an earlier head that fits in
     * its laxity pre-empts it.
     */
    method ScheduleSkipRto(now: u32)
      requires Valid() && Consistent(Snap()) && alg == EdfRto && lists[Queue.Ready.Index()] != []
      modifies store.tasks, store.links, headers, this`lists, store`running, store.report.values
      ensures Valid() && Snap() == SkipRto(old(Snap()), now)
    {
      ghost var s := Snap();
      var first := FirstReady();
      var second := SecondReady();
      if store.running == 0 {
        if Skippable(store.tasks[first]) {
          if CanMeet(store.tasks[first], now) && CanMeet(store.tasks[second], now) {
            DispatchNextTask();
          } else {
            SkipFirstKeeps(s, now);
            SkipFirstTask(now);
            DispatchNextTask();
          }
        } else {
          DispatchNextTask();
        }
      } else if store.tasks[first].absDline < store.tasks[store.running].absDline
             && store.tasks[first].timeLeft < store.tasks[store.running].laxity {
        PreemptTask();
      }
    }

    // ----------------------------------------------------------------------
    // The adaptive policies ADAP-1 to ADAP-7

    /**
     * double_task_period: a flexible task's report count goes up and its
     * record is doubled; any other task is left alone.
     */
    method DoubleTaskPeriod(task: Slot)
      requires Valid()
      modifies store.tasks, store.report.values
      ensures Valid() && Snap() == Doubling(old(Snap()), task)
    {
      var r := store.tasks[task];
      PeriodDoubledChanges(r);
      if r.PeriodFlexible() == 1 {
        CountReport(PerDoubles);
        SetRecord(task, PeriodDoubled(r));
      }
    }

    /** One pre-emption and removal of the ADAP-1/2 loop, for the picked task. */
    method RemovePass(task: Slot)
      requires Valid() && Consistent(Snap()) && task != 0 && Removable(store.tasks[task])
      requires alg == Adap01 || alg == Adap02
      modifies store.tasks, store.links, headers, this`lists, store`running, store.report.values
      ensures Valid() && Snap() == RemoveStep(old(Snap()), task)
    {
      UnseatTask(task);
      RemovableWaits(Snap(), task);
      RemovalKeeps(Snap(), task);
      RemoveTask(task);
    }

    /** The pre-emption of the ADAP-1/2 loop: the picked task is pre-empted when it is the running one. */
    method UnseatTask(task: Slot)
      requires Valid() && Consistent(Snap())
      modifies store.tasks, store.links, headers, this`lists, store`running, store.report.values
      ensures Valid() && Snap() == Unseat(old(Snap()), task)
    {
      if task == store.running && task != 0 {
        PreemptKeeps(Snap());
        PreemptTask();
      }
    }

    /**
     * The removal of the ADAP-1/2 loop: q0_extract, the report's removal
     * count and TOTAL_SKIPS up by one, q0_insert into the removed queue in
     * priority order, state REMOVED.
     */
    method RemoveTask(task: Slot)
      requires Valid() && Consistent(Snap()) && task != 0 && task != store.running
      requires alg == Adap01 || alg == Adap02
      requires store.tasks[task].state in {TaskState.Ready, Preempted, TaskState.Idle}
      requires task in lists[ExtractHeader(store.tasks[task].state).Index()]
      modifies store.tasks, store.links, headers, this`lists, store.report.values
      ensures Valid() && Snap() == Removal(old(Snap()), task)
    {
      ghost var s := Snap();
      RemovalKeeps(s, task);
      RemovalIs(s, task);
      UnhookTask(task);
      FileRemoved(task);
    }

    /** The second half of the removal: q0_insert into the removed queue in priority order, state REMOVED. */
    method FileRemoved(task: Slot)
      requires Valid() && QueuesOk(Snap().ls, Snap().hs, Snap().lists) && task !in lists[Queue.Removed.Index()]
      modifies store.tasks, store.links, headers, this`lists
      ensures Valid()
      ensures Snap() == WithRecord(Inserted(old(Snap()), Queue.Removed, task, Q0Order(Rm)), task, old(store.tasks[task]).(state := TaskState.Removed))
    {
      QueueLinked(Snap(), Queue.Removed);
      Insert(task, Queue.Removed, Rm);
      var q := store.tasks[task];
      SetRecord(task, q.(state := TaskState.Removed));
    }

    /** The first half of the removal: q0_extract, the report's removal count, TOTAL_SKIPS up by one. */
    method UnhookTask(task: Slot)
      requires Valid() && Shaped(Snap()) && task in lists[ExtractHeader(store.tasks[task].state).Index()]
      modifies store.tasks, store.links, headers, this`lists, store.report.values
      ensures Valid() && Snap() == Unhooked(old(Snap()), task)
    {
      ghost var s := Snap();
      Q0Extract(task);
      ghost var a := Snap();
      CountReport(Removals);
      ghost var b := Snap();
      var r := store.tasks[task];
      SetRecord(task, r.WithSpare2(Wrap32(r.TotalSkips() as int + 1)));
      UnhookedOrder(s, task, a, b, r, Snap());
    }

    /**
     * The while loop of schedule_adapive_one_algorithm from utility `util`.
     * It reports `hung` where the source would spin for ever, with no
     * removable task left and the utility still above 100%.
     */
    method RemovalLoop(util: u16) returns (hung: bool)
      requires Valid() && Consistent(Snap()) && (alg == Adap01 || alg == Adap02)
      modifies store.tasks, store.links, headers, this`lists, store`running, store.report.values
      ensures hung <==> Adap1Loop(old(Snap()), util) == Hung
      ensures !hung ==> Valid() && Adap1Loop(old(Snap()), util) == Done(Snap())
    {
      var utility: u16 := util;
      ghost var target := Adap1Loop(Snap(), util);
      while utility as nat > MAX_EDF_UTIL
        invariant Valid() && Consistent(Snap()) && (alg == Adap01 || alg == Adap02)
        invariant Adap1Loop(Snap(), utility) == target
        decreases RemovableCount(Snap().ts, NUM_OF_TASKS)
      {
        hung, utility := RemovalTurn(utility);
        if hung {
          return;
        }
      }
      hung := false;
    }

    /** One turn of the ADAP-1/2 loop: none left to remove (the loop spins), or a removal and the utility read again. */
    method RemovalTurn(util: u16) returns (stop: bool, utility: u16)
      requires Valid() && Consistent(Snap()) && (alg == Adap01 || alg == Adap02) && util as nat > MAX_EDF_UTIL
      modifies store.tasks, store.links, headers, this`lists, store`running, store.report.values
      ensures stop ==> Adap1Loop(old(Snap()), util) == Hung
      ensures !stop ==> Valid() && Consistent(Snap()) && Adap1Loop(Snap(), utility) == Adap1Loop(old(Snap()), util)
      ensures !stop ==> RemovableCount(Snap().ts, NUM_OF_TASKS) < RemovableCount(old(Snap()).ts, NUM_OF_TASKS)
    {
      Adap1LoopTurn(Snap(), util);
      var task := LowestPriorityActiveTask();
      stop := task == 0;
      utility := util;
      if !stop {
        RemoveStepCounts(Snap(), task);
        RemovePass(task);
        utility := TaskSetUtility();
      }
    }

    /**
     * schedule_adapive_one_algorithm (ADAP-1 and ADAP-2): utilities
     * recalculated, the removal loop, process_removed_tasks, the EDF test.
     */
    method ScheduleAdap1(now: u32) returns (hung: bool)
      requires Valid() && Consistent(Snap()) && (alg == Adap01 || alg == Adap02)
      modifies store.tasks, store.links, headers, this`lists, store`running, store.report.values
      ensures hung <==> Adap1(old(Snap()), now) == Hung
      ensures !hung ==> Valid() && Adap1(old(Snap()), now) == Done(Snap())
    {
      MetricsKeep(Snap(), 0, now, 0);
      var utility := CalculateAllTaskUtilities();
      hung := RemovalLoop(utility);
      if !hung {
        ProcessRemovedTasks(now);
        ScheduleEdf();
      }
    }

    /** The doubling of the ADAP-3/4/5 loops: double_task_period, then q1_insert in priority order. */
    method DoublePass(task: Slot)
      requires Valid() && Consistent(Snap()) && task != 0 && DoublesFromZero(alg) && Removable(store.tasks[task])
      modifies store.tasks, store.links, headers, this`lists, store.report.values
      ensures Valid() && Snap() == DoubleStep(old(Snap()), task, Q1Order(Rm))
    {
      RemovableUndoubled(Snap(), task);
      DoubleTaskPeriod(task);
      QueueLinked(Snap(), Doubled);
      Insert(task, Doubled, Rm);
    }

    /** The while loop of schedule_adapive_three_algorithm from utility `util`; `hung` where the source spins. */
    method DoublingLoop(util: u16) returns (hung: bool)
      requires Valid() && Consistent(Snap()) && (alg == Adap03 || alg == Adap04)
      modifies store.tasks, store.links, headers, this`lists, store.report.values
      ensures hung <==> Adap3Loop(old(Snap()), util) == Hung
      ensures !hung ==> Valid() && Adap3Loop(old(Snap()), util) == Done(Snap())
    {
      var utility: u16 := util;
      ghost var target := Adap3Loop(Snap(), util);
      while utility as nat > MAX_EDF_UTIL
        invariant Valid() && Consistent(Snap()) && (alg == Adap03 || alg == Adap04)
        invariant Adap3Loop(Snap(), utility) == target
        decreases RemovableCount(Snap().ts, NUM_OF_TASKS)
      {
        hung, utility := DoublingTurn(utility);
        if hung {
          return;
        }
      }
      hung := false;
    }

    /** One turn of the ADAP-3/4 loop: none left to double (the loop spins), or a doubling and the utility read again. */
    method DoublingTurn(util: u16) returns (stop: bool, utility: u16)
      requires Valid() && Consistent(Snap()) && (alg == Adap03 || alg == Adap04) && util as nat > MAX_EDF_UTIL
      modifies store.tasks, store.links, headers, this`lists, store.report.values
      ensures stop ==> Adap3Loop(old(Snap()), util) == Hung
      ensures !stop ==> Valid() && Consistent(Snap()) && Adap3Loop(Snap(), utility) == Adap3Loop(old(Snap()), util)
      ensures !stop ==> RemovableCount(Snap().ts, NUM_OF_TASKS) < RemovableCount(old(Snap()).ts, NUM_OF_TASKS)
    {
      Adap3LoopTurn(Snap(), util);
      var task := LowestPriorityActiveTask();
      stop := task == 0;
      utility := util;
      if !stop {
        DoubleLowestKeeps(Snap(), task, Q1Order(Rm));
        DoublePass(task);
        utility := TaskSetUtility();
      }
    }

    /** schedule_adapive_three_algorithm (ADAP-3 and ADAP-4): utilities recalculated, the doubling loop, the EDF test. */
    method ScheduleAdap3() returns (hung: bool)
      requires Valid() && Consistent(Snap()) && (alg == Adap03 || alg == Adap04)
      modifies store.tasks, store.links, headers, this`lists, store`running, store.report.values
      ensures hung <==> Adap3(old(Snap())) == Hung
      ensures !hung ==> Valid() && Adap3(old(Snap())) == Done(Snap())
    {
      MetricsKeep(Snap(), 0, 0, 0);
      var utility := CalculateAllTaskUtilities();
      hung := DoublingLoop(utility);
      if !hung {
        ScheduleEdf();
      }
    }

    /**
     * The while loop of schedule_adapive_five_algorithm: while the stored
     * laxity of the ready head is below the running task's time left, the
     * least important task is doubled and all laxities recalculated.
     */
    method LaxityLoop(now: u32) returns (hung: bool)
      requires Valid() && Consistent(Snap()) && alg == Adap05
      modifies store.tasks, store.links, headers, this`lists, store.report.values
      ensures hung <==> Adap5Loop(old(Snap()), now) == Hung
      ensures !hung ==> Valid() && Adap5Loop(old(Snap()), now) == Done(Snap())
    {
      var first := FirstReady();
      var laxity: u32, timeLeft: u32 := store.tasks[first].laxity, store.tasks[store.running].timeLeft;
      ghost var target := Adap5Loop(Snap(), now);
      while laxity < timeLeft
        invariant Valid() && Consistent(Snap()) && alg == Adap05
        invariant laxity == store.tasks[Head(Snap())].laxity && timeLeft == store.tasks[store.running].timeLeft
        invariant Adap5Loop(Snap(), now) == target
        decreases RemovableCount(Snap().ts, NUM_OF_TASKS)
      {
        hung, laxity, timeLeft := LaxityTurn(now);
        if hung {
          return;
        }
      }
      hung := false;
    }

    /**
     * One turn of the ADAP-5 loop: none left to double (the loop spins), or
     * a doubling, all laxities recalculated and the ready head's laxity read again.
     */
    method LaxityTurn(now: u32) returns (stop: bool, laxity: u32, timeLeft: u32)
      requires Valid() && Consistent(Snap()) && alg == Adap05
      requires store.tasks[Head(Snap())].laxity < store.tasks[store.running].timeLeft
      modifies store.tasks, store.links, headers, this`lists, store.report.values
      ensures stop ==> Adap5Loop(old(Snap()), now) == Hung
      ensures !stop ==> Valid() && Consistent(Snap()) && Adap5Loop(Snap(), now) == Adap5Loop(old(Snap()), now)
      ensures !stop ==> laxity == store.tasks[Head(Snap())].laxity && timeLeft == store.tasks[store.running].timeLeft
      ensures !stop ==> RemovableCount(Snap().ts, NUM_OF_TASKS) < RemovableCount(old(Snap()).ts, NUM_OF_TASKS)
    {
      Adap5LoopTurn(Snap(), now);
      var task := LowestPriorityActiveTask();
      stop := task == 0;
      laxity, timeLeft := 0, 0;
      if !stop {
        laxity := LaxityRound(task, now);
        timeLeft := store.tasks[store.running].timeLeft;
      }
    }

    /** One pass of the ADAP-5 loop: the doubling, all laxities recalculated, the ready head's laxity read again. */
    method LaxityRound(task: Slot, now: u32) returns (laxity: u32)
      requires Valid() && Consistent(Snap()) && task != 0 && alg == Adap05 && Removable(store.tasks[task])
      modifies store.tasks, store.links, headers, this`lists, store.report.values
      ensures Valid() && Snap() == Adap5Next(old(Snap()), now, task)
      ensures laxity == store.tasks[Head(Snap())].laxity
    {
      DoubleLowestKeeps(Snap(), task, Q1Order(Rm));
      DoublePass(task);
      MetricsKeep(Snap(), 0, now, 0);
      LaxitiesKeepCount(store.tasks[..], now, NUM_OF_TASKS);
      CalculateAllLaxities(now);
      var first := FirstReady();
      laxity := store.tasks[first].laxity;
    }

    /** schedule_adapive_five_algorithm: the laxity loop, then the EDF test. */
    method ScheduleAdap5(now: u32) returns (hung: bool)
      requires Valid() && Consistent(Snap()) && alg == Adap05
      modifies store.tasks, store.links, headers, this`lists, store`running, store.report.values
      ensures hung <==> Adap5(old(Snap()), now) == Hung
      ensures !hung ==> Valid() && Adap5(old(Snap()), now) == Done(Snap())
    {
      hung := LaxityLoop(now);
      if !hung {
        ScheduleEdf();
      }
    }

    /** The fault ADAP-6 and ADAP-7 inject: the running task's measured time grows by `v` (U32). */
    method InjectOverrun(v: u32)
      requires Valid() && Consistent(Snap())
      modifies store.tasks
      ensures Valid() && Snap() == Overrun(old(Snap()), v)
    {
      var r := store.tasks[store.running];
      SetRecord(store.running, r.(timeTaken := Wrap32(r.timeTaken as int + v as int)));
    }

    /** The fault of schedule_adapive_seven_algorithm: at tick 906, +5 for test 57 and +100 for test 60. */
    method InjectFault7(now: u32, testNum: u8)
      requires Valid() && Consistent(Snap())
      modifies store.tasks
      ensures Valid() && Consistent(Snap())
      ensures Snap() == if now == FAULT_TIME && testNum == 57 then Overrun(old(Snap()), 5)
                        else if now == FAULT_TIME && testNum == 60 then Overrun(old(Snap()), 100)
                        else old(Snap())
    {
      if now == FAULT_TIME && testNum == 57 {
        InjectOverrun(5);
      } else if now == FAULT_TIME && testNum == 60 {
        InjectOverrun(100);
      }
    }

    /**
     * calculate_all_task_utilities and then calculate_laxity of the head
     * picked in between (or before the loop); returns both results.
     */
    method Recalculate(now: u32, first: Slot) returns (utility: u16, laxity: u32)
      requires Valid() && Consistent(Snap())
      modifies store.tasks
      ensures Valid() && Snap() == Recalculated(old(Snap()), first, now)
      ensures utility == SetUtility(store.tasks[..]) && laxity == store.tasks[first].laxity
    {
      MetricsKeep(Snap(), 0, now, 0);
      utility := CalculateAllTaskUtilities();
      laxity := CalculateLaxity(first, now);
    }

    /**
     * The doubling of the ADAP-6 loop. The source also calls q1_insert for a
     * pick of 0, which corrupts the doubled-periods queue; here a pick of 0
     * is only doubled (slot 0's record) and queued nowhere.
     */
    method DoubleLowestPass(task: Slot)
      requires Valid() && Consistent(Snap()) && DoublesFromZero(alg) && (task != 0 ==> Removable(store.tasks[task]))
      modifies store.tasks, store.links, headers, this`lists, store.report.values
      ensures Valid() && Snap() == DoubleLowest(old(Snap()), task)
    {
      if task == 0 {
        DoubleTaskPeriod(0);
      } else {
        DoublePass(task);
      }
    }

    /**
     * schedule_adapive_six_algorithm: the fault at tick 906, utilities and
     * the head's laxity recalculated, at most five doubling passes while the
     * utility exceeds 100% or the laxity is below the running task's time
     * left, then the EDF test.
     */
    method ScheduleAdap6(now: u32)
      requires Valid() && Consistent(Snap()) && alg == Adap06
      modifies store.tasks, store.links, headers, this`lists, store`running, store.report.values
      ensures Valid() && Snap() == Adap6(old(Snap()), now)
    {
      if now == FAULT_TIME {
        InjectOverrun(5);
      }
      var first := FirstReady();
      var utility, laxity := Recalculate(now, first);
      Adap6Passes(now, first, utility, laxity);
      ScheduleEdf();
    }

    /** The bounded loop of schedule_adapive_six_algorithm, from the recalculated utility and laxity. */
    method Adap6Passes(now: u32, first: Slot, util: u16, lax: u32)
      requires Valid() && Consistent(Snap()) && alg == Adap06
      requires util == SetUtility(store.tasks[..]) && lax == store.tasks[first].laxity
      modifies store.tasks, store.links, headers, this`lists, store.report.values
      ensures Valid() && Consistent(Snap()) && Snap() == Adap6Loop(old(Snap()), now, first, util, 0).s
    {
      var utility: u16, laxity: u32 := util, lax;
      var loopCount: nat := 0;
      ghost var target := Adap6Loop(Snap(), now, first, util, 0);
      var timeLeft := store.tasks[store.running].timeLeft;
      while (utility as nat > MAX_EDF_UTIL || laxity < timeLeft) && loopCount < ADAP6_PASSES
        invariant Valid() && Consistent(Snap()) && alg == Adap06 && loopCount <= ADAP6_PASSES
        invariant utility == SetUtility(store.tasks[..]) && laxity == store.tasks[first].laxity
        invariant timeLeft == store.tasks[store.running].timeLeft
        invariant Adap6Loop(Snap(), now, first, utility, loopCount) == target
        decreases ADAP6_PASSES - loopCount
      {
        utility, laxity, timeLeft := Adap6Turn(now, first, utility, laxity, loopCount);
        loopCount := loopCount + 1;
      }
    }

    /** One pass of the ADAP-6 loop: the least important task doubled, then utilities and the head's laxity recalculated. */
    method Adap6Turn(now: u32, first: Slot, util: u16, lax: u32, count: nat) returns (utility: u16, laxity: u32, timeLeft: u32)
      requires Valid() && Consistent(Snap()) && alg == Adap06 && count < ADAP6_PASSES
      requires util == SetUtility(store.tasks[..]) && lax == store.tasks[first].laxity
      requires util as nat > MAX_EDF_UTIL || lax < store.tasks[store.running].timeLeft
      modifies store.tasks, store.links, headers, this`lists, store.report.values
      ensures Valid() && Consistent(Snap())
      ensures utility == SetUtility(store.tasks[..]) && laxity == store.tasks[first].laxity
      ensures timeLeft == store.tasks[store.running].timeLeft
      ensures Adap6Loop(Snap(), now, first, utility, count + 1) == Adap6Loop(old(Snap()), now, first, util, count)
    {
      Adap6LoopTurn(Snap(), now, first, util, count);
      var task := LowestPriorityActiveTask();
      utility, laxity := Adap6Round(task, now, first);
      timeLeft := store.tasks[store.running].timeLeft;
    }

    /** One pass of the ADAP-6 loop for the picked task: the doubling, then utilities and the head's laxity recalculated. */
    method Adap6Round(task: Slot, now: u32, first: Slot) returns (utility: u16, laxity: u32)
      requires Valid() && Consistent(Snap()) && alg == Adap06 && task == LowestActive(store.tasks[..])
      modifies store.tasks, store.links, headers, this`lists, store.report.values
      ensures Valid() && Snap() == Adap6Next(old(Snap()), now, first)
      ensures utility == SetUtility(store.tasks[..]) && laxity == store.tasks[first].laxity
    {
      LowestIsRemovable(store.tasks[..]);
      DoubleLowestPass(task);
      utility, laxity := Recalculate(now, first);
    }

    /**
     * One pass of the ADAP-7 loop for the candidate get_active_task_priority
     * picked: q1_extract, double_task_period, q1_insert in enhanced-priority
     * order. A candidate of 0 is only doubled and queued nowhere, where the
     * source's q1_insert of slot 0 would corrupt the doubled-periods queue.
     */
    method RequeuePass(c: Slot)
      requires Valid() && Consistent(Snap()) && alg == Adap07
      modifies store.tasks, store.links, headers, this`lists, store.report.values
      ensures Valid() && Snap() == Adap7Step(old(Snap()), c)
    {
      ghost var s := Snap();
      RequeueQueues(s, c);
      Q1Extract(c);
      DoubleTaskPeriod(c);
      if c != 0 {
        QueueLinked(Snap(), Doubled);
        Insert(c, Doubled, Adap07);
      }
    }

    /**
     * schedule_adapive_seven_algorithm: the fault of test 57 (+5) or test 60
     * (+100) at tick 906, utilities and the head's laxity recalculated, at
     * most ten passes while the utility exceeds 100%, then the EDF test.
     */
    method ScheduleAdap7(now: u32, testNum: u8)
      requires Valid() && Consistent(Snap()) && alg == Adap07
      modifies store.tasks, store.links, headers, this`lists, store`running, store.report.values
      ensures Valid() && Snap() == Adap7(old(Snap()), now, testNum)
    {
      InjectFault7(now, testNum);
      var first := FirstReady();
      var utility, laxity := Recalculate(now, first);
      Adap7Passes(now, first, utility);
      ScheduleEdf();
    }

    /** The bounded loop of schedule_adapive_seven_algorithm, from the recalculated utility. */
    method Adap7Passes(now: u32, first: Slot, util: u16)
      requires Valid() && Consistent(Snap()) && alg == Adap07 && util == SetUtility(store.tasks[..])
      modifies store.tasks, store.links, headers, this`lists, store.report.values
      ensures Valid() && Consistent(Snap()) && Snap() == Adap7Loop(old(Snap()), now, first, util, 0).s
    {
      var utility: u16 := util;
      var loopCount: nat := 0;
      ghost var target := Adap7Loop(Snap(), now, first, util, 0);
      while utility as nat > MAX_EDF_UTIL && loopCount < ADAP7_PASSES
        invariant Valid() && Consistent(Snap()) && alg == Adap07 && loopCount <= ADAP7_PASSES
        invariant utility == SetUtility(store.tasks[..])
        invariant Adap7Loop(Snap(), now, first, utility, loopCount) == target
        decreases ADAP7_PASSES - loopCount
      {
        utility := Adap7Turn(now, first, utility, loopCount);
        loopCount := loopCount + 1;
      }
    }

    /** One pass of the ADAP-7 loop, with the loop's next utility. */
    method Adap7Turn(now: u32, first: Slot, util: u16, count: nat) returns (utility: u16)
      requires Valid() && Consistent(Snap()) && alg == Adap07 && count < ADAP7_PASSES
      requires util == SetUtility(Snap().ts) && util as nat > MAX_EDF_UTIL
      modifies store.tasks, store.links, headers, this`lists, store.report.values
      ensures Valid() && Consistent(Snap()) && utility == SetUtility(Snap().ts)
      ensures Adap7Loop(Snap(), now, first, utility, count + 1) == Adap7Loop(old(Snap()), now, first, util, count)
    {
      Adap7LoopTurn(Snap(), now, first, util, count);
      var laxity;
      utility, laxity := Adap7Round(now, first);
    }

    /**
     * One pass of the ADAP-7 loop: enhanced priorities recalculated and the
     * candidate picked, the candidate requeued, then utilities and the
     * head's laxity recalculated.
     */
    method Adap7Round(now: u32, first: Slot) returns (utility: u16, laxity: u32)
      requires Valid() && Consistent(Snap()) && alg == Adap07 && Consistent(EPriorities(Snap()))
      modifies store.tasks, store.links, headers, this`lists, store.report.values
      ensures Valid() && Snap() == Adap7Next(old(Snap()), now, first)
      ensures utility == SetUtility(store.tasks[..]) && laxity == store.tasks[first].laxity
    {
      var c := ActiveTaskPriority();
      RequeuePass(c);
      utility, laxity := Recalculate(now, first);
    }

    // ----------------------------------------------------------------------
    // process_ready_tasks and SCH_start

    /** `q_empty(ZERO_CPV, ready_tasks)`. */
    method ReadyEmpty() returns (empty: bool)
      requires Valid() && Consistent(Snap())
      ensures empty <==> lists[Queue.Ready.Index()] == []
    {
      QueueLinked(Snap(), Queue.Ready);
      QueriesReadList(store.links[..], Q0, headers[Queue.Ready.Index()], lists[Queue.Ready.Index()]);
      empty := QEmpty(0, headers[Queue.Ready.Index()]);
    }

    /**
     * process_ready_tasks: with a non-empty ready queue, the handler of the
     * algorithm in force; `hung` where an ADAP-1 to ADAP-5 loop would spin.
     */
    method ProcessReadyTasks(now: u32, testNum: u8) returns (hung: bool)
      requires Valid() && Consistent(Snap())
      modifies store.tasks, store.links, headers, this`lists, store`running, store.report.values
      ensures hung <==> ProcessReady(old(Snap()), now, testNum) == Hung
      ensures !hung ==> Valid() && ProcessReady(old(Snap()), now, testNum) == Done(Snap())
    {
      hung := false;
      var empty := ReadyEmpty();
      if !empty {
        if Unbounded(alg) {
          hung := ScheduleUnbounded(now);
        } else {
          ScheduleBounded(now, testNum);
        }
      }
    }

    /** The ADAP-1 to ADAP-5 arms of process_ready_tasks, whose loops can spin. */
    method ScheduleUnbounded(now: u32) returns (hung: bool)
      requires Valid() && Consistent(Snap()) && lists[Queue.Ready.Index()] != [] && Unbounded(alg)
      modifies store.tasks, store.links, headers, this`lists, store`running, store.report.values
      ensures hung <==> UnboundedHandler(old(Snap()), now) == Hung
      ensures !hung ==> Valid() && UnboundedHandler(old(Snap()), now) == Done(Snap())
    {
      if alg == Adap01 || alg == Adap02 {
        hung := ScheduleAdap1(now);
      } else if alg == Adap03 || alg == Adap04 {
        hung := ScheduleAdap3();
      } else {
        hung := ScheduleAdap5(now);
      }
    }

    /** The other arms of process_ready_tasks: ADAP-6, ADAP-7, EDF-RTO and the policies. */
    method ScheduleBounded(now: u32, testNum: u8)
      requires Valid() && Consistent(Snap()) && lists[Queue.Ready.Index()] != [] && !Unbounded(alg)
      modifies store.tasks, store.links, headers, this`lists, store`running, store.report.values
      ensures Valid() && Snap() == BoundedHandler(old(Snap()), now, testNum)
    {
      if !Idles(alg) {
        if alg == Adap06 {
          ScheduleAdap6(now);
        } else if alg == Adap07 {
          ScheduleAdap7(now, testNum);
        } else if alg == EdfRto {
          ScheduleSkipRto(now);
        } else {
          SchedulePolicy(now);
        }
      }
    }

    /** The first stage of SCH_start: all laxities, then the MUF urgencies where the algorithm uses them. */
    method RefreshMetrics(now: u32)
      requires Valid() && Consistent(Snap())
      modifies store.tasks
      ensures Valid() && Snap() == Refreshed(old(Snap()), now)
    {
      MetricsKeep(Snap(), 0, now, 0);
      CalculateAllLaxities(now);
      MetricsKeep(Snap(), 0, now, 0);
      if alg == Muf || alg == Mmuf || alg == Mmmuf {
        CalculateAllMufUrgencies();
      }
    }

    /** The second stage of SCH_start: the waiting, completed and removed tasks. */
    method RetireTasks(now: u32)
      requires Valid() && Consistent(Snap())
      modifies store.tasks, store.links, headers, this`lists, store`running, store.report.values
      ensures Valid() && Snap() == Retired(old(Snap()), now)
    {
      ProcessWaitingTasks(now);
      ProcessCompletedKeeps(Snap(), now);
      ProcessCompletedTasks(now);
      ProcessRemovedTasks(now);
    }

    /** The third stage of SCH_start: the doubled periods and the skipped tasks where the algorithm has them, then the idle tasks. */
    method RestoreTasks(now: u32)
      requires Valid() && Consistent(Snap())
      modifies store.tasks, store.links, headers, this`lists
      ensures Valid() && Snap() == Restored(old(Snap()), now)
    {
      if alg == Adap02 || alg == Adap03 || alg == Adap04 || alg == Adap05 || alg == Adap06 || alg == Adap07 {
        ProcessDoubledPeriods();
      }
      if alg == RmRto || alg == EdfRto || alg == EdfBwp {
        ProcessSkippedTasks(now);
      }
      ProcessIdleTasks(now);
    }

    /** SCH_start: the housekeeping, then process_ready_tasks; `hung` where the source would not return. */
    method Start(now: u32, testNum: u8) returns (hung: bool)
      requires Valid() && Consistent(Snap())
      modifies store.tasks, store.links, headers, this`lists, store`running, store.report.values
      ensures hung <==> SchedTick.Start(old(Snap()), now, testNum) == Hung
      ensures !hung ==> Valid() && SchedTick.Start(old(Snap()), now, testNum) == Done(Snap())
      ensures !Unbounded(old(alg)) ==> !hung
    {
      RefreshMetrics(now);
      RetireTasks(now);
      RestoreTasks(now);
      hung := ProcessReadyTasks(now, testNum);
    }

    // ----------------------------------------------------------------------
    // The stages of SCH_start over the running task and the skipped queue

    /**
     * process_completed_tasks: a running task with no time left is booked as
     * completed; a periodic one goes IDLE onto the idle queue, any other one
     * to SLEEP, and nothing runs afterwards.
     */
    method ProcessCompletedTasks(now: u32)
      requires Valid() && Consistent(Snap())
      modifies store.tasks, store.links, headers, this`lists, store`running, store.report.values
      ensures Valid() && Snap() == ProcessCompleted(old(Snap()), now)
    {
      if store.running > 0 && store.tasks[store.running].timeLeft == 0 {
        ghost var s := Snap();
        var task := store.running;
        Book(task, now);
        CompletedQueues(s, now);
        if store.tasks[task].period > 0 {
          SetRecord(task, store.tasks[task].(state := TaskState.Idle));
          ghost var b := Snap();
          QueueLinked(b, Queue.Idle);
          Insert(task, Queue.Idle, Edf);
          SetRunning(0);
          InsertedRunning(b, Queue.Idle, task, Q0Order(Edf), 0);
        } else {
          SetRecord(task, store.tasks[task].(state := Sleep));
          SetRunning(0);
        }
      }
    }

    /** TSK_task_completed on the object: the record and the report book the finished job. */
    method Book(task: Slot, now: u32)
      requires Valid()
      modifies store.tasks, store.report.values
      ensures Valid()
      ensures Snap() == WithRecord(old(Snap()), task, Completed(old(store.tasks[task]), now))
                          .(counters := CompletionCounted(old(Snap()).counters, old(store.tasks[task]), now))
    {
      ghost var c := store.report.values[..];
      ghost var r := store.tasks[task];
      store.TaskCompleted(task, now);
      CompletionBooked(c, store.report.values[..], r, now);
      assert store.tasks[..] == old(store.tasks[..])[task := Completed(r, now)];
    }

    /** The release of the skipped head in process_skipped_tasks, before it is queued. */
    method RearmHead(now: u32) returns (task: Slot)
      requires Valid() && Consistent(Snap()) && Due(Snap(), Queue.Skipped, now)
      modifies store.tasks, store.links, headers, this`lists
      ensures Valid() && task == old(lists[Queue.Skipped.Index()][0])
      ensures Snap() == SkippedReleased(old(Snap()), now)
    {
      QueueLinked(Snap(), Queue.Skipped);
      task := ExtractFirst(Queue.Skipped);
      var r := store.tasks[task];
      store.tasks[task] := r.(absDline := Wrap32(r.relDline as int + now as int), timeLeft := r.cDuration).WithSpare2(Wrap8(r.SkipGap() as int));
    }

    /**
     * One pass of process_skipped_tasks: the skipped head is re-armed and
     * queued as ready when it has no laxity stored, as idle otherwise.
     */
    method SkippedPass(now: u32)
      requires Valid() && Consistent(Snap()) && Due(Snap(), Queue.Skipped, now)
      modifies store.tasks, store.links, headers, this`lists
      ensures Valid() && Snap() == SkippedStep(old(Snap()), now)
    {
      ghost var s := Snap();
      var task := RearmHead(now);
      SkippedPassQueues(s, now);
      ghost var r := Snap();
      if store.tasks[task].laxity == 0 {
        QueueLinked(r, Queue.Ready);
        Insert(task, Queue.Ready, alg);
        SetRecord(task, store.tasks[task].(state := TaskState.Ready));
      } else {
        QueueLinked(r, Queue.Idle);
        Insert(task, Queue.Idle, alg);
        SetRecord(task, store.tasks[task].(state := TaskState.Idle));
      }
      ghost var q := SkipTarget(r.ts[task]);
      assert Snap() == WithRecord(Inserted(r, q, task, Q0Order(s.alg)), task, r.ts[task].(state := TargetState(q)));
    }

    /** process_skipped_tasks: skipped tasks whose deadline has come are released. */
    method ProcessSkippedTasks(now: u32)
      requires Valid() && Consistent(Snap())
      modifies store.tasks, store.links, headers, this`lists
      ensures Valid() && Snap() == ProcessSkipped(old(Snap()), now)
    {
      var due := HeadDue(Queue.Skipped, now);
      while due
        invariant Valid() && Consistent(Snap()) && due == Due(Snap(), Queue.Skipped, now)
        invariant ProcessSkipped(Snap(), now) == ProcessSkipped(old(Snap()), now)
        decreases |lists[Queue.Skipped.Index()]|
      {
        SkippedStepKeeps(Snap(), now);
        SkippedPass(now);
        due := HeadDue(Queue.Skipped, now);
      }
    }

    /** SCH_set_algorithm. */
    method SetAlgorithm(a: Algorithm)
      modifies this`alg
      ensures alg == a
    {
      alg := a;
    }
  }

  /** A sweep that has rewritten slots 0..i-1 rewrites slot i. */
  lemma SweepStep<T>(a: seq<T>, a': seq<T>, w: seq<T>, ts: seq<T>, i: nat)
    requires |w| == |ts| && i < |ts| && a == w[..i] + ts[i..]
    requires a' == a[i := w[i]]
    ensures a' == w[..i + 1] + ts[i + 1..]
  {
  }

  /** One more slot of the utility sweep: its contribution is added modulo 2^16. */
  lemma UtilitySumStep(ts: seq<TaskRecord>, index: nat, u: u16, u': u16)
    requires |ts| == NUM_OF_TASKS && 1 <= index < NUM_OF_TASKS
    requires u == Wrap16(UtilitySum(ts, index))
    requires u' == if UtilityState(ts[index].state) then Wrap16(u as int + Contribution(ts[index], ts[index].taskUtil)) else u
    ensures u' == Wrap16(UtilitySum(ts, index + 1))
  {
    if UtilityState(ts[index].state) {
      Utils.WrapAdd(UtilitySum(ts, index), Contribution(ts[index], ts[index].taskUtil), TWO_16);
    }
  }

  /** Before the waiting head is queued as idle, the queues are well formed and it is on no idle list. */
  lemma WaitingPassQueues(s: Snapshot, now: u32)
    requires Consistent(s) && Due(s, Queue.Waiting, now)
    ensures var t := s.lists[Queue.Waiting.Index()][0]; var s1 := FirstOut(s, Queue.Waiting);
      var s2 := Urgencies(Laxities(WithRecord(s1, t, s1.ts[t].(state := TaskState.Idle)), now));
      t != 0 && QueuesOk(s2.ls, s2.hs, s2.lists) && t !in s2.lists[Queue.Idle.Index()]
  {
    HeadOut(s, Queue.Waiting);
  }

  /** Before the idle head is queued as ready, the queues are well formed and it is on no ready list. */
  lemma IdlePassQueues(s: Snapshot, now: u32)
    requires Consistent(s) && Due(s, Queue.Idle, now)
    ensures var t := s.lists[Queue.Idle.Index()][0]; var r := IdleReleased(s, now);
      && t != 0 && QueuesOk(r.ls, r.hs, r.lists) && Unqueued(r.lists, Q0, t)
      && (MirrorsLst(s.alg) ==> t !in r.lists[Lst.Index()])
  {
    IdleReleasedBut(s, now);
    IdleFitsReady(s, now);
  }

  /** Linking a task on none of the queues of a link set into one of them keeps the queues well formed. */
  lemma InsertedQueuesOk(s: Snapshot, h: Queue, task: Slot, o: Order)
    requires Shaped(s) && QueuesOk(s.ls, s.hs, s.lists) && task != 0 && Unqueued(s.lists, h.Link(), task)
    ensures var r := Inserted(s, h, task, o); QueuesOk(r.ls, r.hs, r.lists)
  {
    InsertKeepsQueuesOk(s.ls, s.hs, s.lists, h, task, InsertIndex(o, s.ts, s.lists[h.Index()], s.ts[task]));
  }

  /** Unlinking slot 0 from an empty, well-formed lst queue rewrites every link with its own value. */
  lemma NullUnlink(ls: seq<Links>, hs: seq<Links>, lists: seq<seq<Slot>>)
    requires |ls| == NUM_OF_TASKS && |hs| == NUM_OF_QUEUES && |lists| == NUM_OF_QUEUES
    requires QueuesOk(ls, hs, lists) && lists[Lst.Index()] == []
    ensures Unlink(Cells(ls, hs[Lst.Index()]), Q2, 0) == Cells(ls, hs[Lst.Index()])
  {
    assert Linked(ls, Q2, hs[Lst.Index()].Next(Q2), []);
  }

  /** The insertions do not read the running id. */
  lemma InsertedRunning(s: Snapshot, h: Queue, task: Slot, o: Order, r: Slot)
    requires Shaped(s)
    ensures Inserted(s, h, task, o).(running := r) == Inserted(s.(running := r), h, task, o)
  {
  }

  /** QueueReady's insertions do not read the running id. */
  lemma ReadyQueuedRunning(s: Snapshot, task: Slot)
    requires Shaped(s)
    ensures var a := Inserted(s, Queue.Ready, task, Q0Order(s.alg));
      var b := Inserted(s.(running := 0), Queue.Ready, task, Q0Order(s.alg));
      && a.(running := 0) == b
      && Inserted(a, Lst, task, Q2Order(Llf)).(running := 0) == Inserted(b, Lst, task, Q2Order(Llf))
  {
    InsertedRunning(s, Queue.Ready, task, Q0Order(s.alg), 0);
    InsertedRunning(Inserted(s, Queue.Ready, task, Q0Order(s.alg)), Lst, task, Q2Order(Llf), 0);
  }

  /** The running task taken off the processor is on no q0 queue, nor in lst under ADAP-5/6. */
  lemma PreemptQueues(s: Snapshot)
    requires Consistent(s) && s.running != 0
    ensures var u := Unseated(s); var t := s.running;
      && QueuesOk(u.ls, u.hs, u.lists) && Unqueued(u.lists, Q0, t)
      && (MirrorsLst(s.alg) ==> t !in u.lists[Lst.Index()])
  {
    UnseatedBut(s);
    UnseatedFits(s);
  }

  /** Under ADAP-5/6 the dispatched head is in lst, and with an empty ready queue lst is empty. */
  lemma DispatchQueues(s: Snapshot)
    requires Consistent(s) && s.running == 0 && MirrorsLst(s.alg)
    ensures s.lists[Queue.Ready.Index()] != [] ==>
      var t := s.lists[Queue.Ready.Index()][0]; t in FirstOut(s, Queue.Ready).lists[Lst.Index()]
    ensures s.lists[Queue.Ready.Index()] == [] ==> s.lists[Lst.Index()] == []
  {
    if s.lists[Queue.Ready.Index()] != [] {
      HeadMirrored(s);
    } else {
      MirrorEmpty(s);
    }
  }

  /** The steps of dispatch_next_task compose to Dispatch. */
  lemma DispatchSteps(s: Snapshot, id: Slot, s1: Snapshot, s2: Snapshot)
    requires Consistent(s) && s.running == 0
    requires id == At(s.lists[Queue.Ready.Index()], 0)
    requires s.lists[Queue.Ready.Index()] == [] ==> s1 == s.(running := 0)
    requires s.lists[Queue.Ready.Index()] != [] ==> s1 == FirstOut(s, Queue.Ready).(running := id)
    requires Shaped(s1) && (MirrorsLst(s.alg) && id in s1.lists[Lst.Index()] ==> s2 == Out(s1, Lst, id))
    requires !(MirrorsLst(s.alg) && id in s1.lists[Lst.Index()]) ==> s2 == s1
    ensures Shaped(s2) && s2.ts == s.ts
    ensures id == 0 ==> Dispatch(s) == s2
    ensures id != 0 ==> Dispatch(s) == WithRecord(s2, id, DispatchedRecord(s.ts[id]))
  {
    if s.lists[Queue.Ready.Index()] == [] {
      if MirrorsLst(s.alg) {
        MirrorEmpty(s);
      }
    } else {
      QueueLinked(s, Queue.Ready);
      if MirrorsLst(s.alg) {
        HeadMirrored(s);
      }
    }
  }

  /** The skipped head, once off the ready queue, is on no q0 queue and the queues are well formed. */
  lemma SkipFirstQueues(s: Snapshot, now: u32)
    requires Consistent(s) && s.lists[Queue.Ready.Index()] != [] && s.alg == EdfRto
    ensures var t := s.lists[Queue.Ready.Index()][0]; var s1 := FirstOut(s, Queue.Ready);
      t != 0 && QueuesOk(s1.ls, s1.hs, s1.lists) && t !in s1.lists[Queue.Skipped.Index()]
  {
    HeadOut(s, Queue.Ready);
    SkipFirstFits(s, now);
  }

  /** Before a restored removed task is queued as idle, the queues are well formed and it is on no q0 queue. */
  lemma RemovedPassQueues(s: Snapshot, now: u32, task: Slot)
    requires Consistent(s) && task in s.lists[Queue.Removed.Index()] && s.ts[task].state == TaskState.Removed
    ensures var s1 := Out(s, Queue.Removed, task);
      var s2 := WithRecord(s1, task, s1.ts[task].(state := TaskState.Idle, absDline := now));
      task != 0 && QueuesOk(s2.ls, s2.hs, s2.lists) && task !in s2.lists[Queue.Idle.Index()]
  {
    MemberOut(s, Queue.Removed, task);
  }

  /** Before a halved task still doubled goes back into the doubled-periods queue, it is not on it. */
  lemma RehalvePassQueues(s: Snapshot, task: Slot)
    requires Consistent(s) && task in s.lists[Doubled.Index()]
    ensures var h := PeriodHalved(s.ts[task]);
      var s2 := WithRecord(Out(s, Doubled, task), task, h.(ePriority := EPriority(h)));
      QueuesOk(s2.ls, s2.hs, s2.lists) && task !in s2.lists[Doubled.Index()]
  {
    MemberOut(s, Doubled, task);
  }

  /** A pass of the ADAP-6/7 restoring loop, with its utility refresh, lowers the weight of the doubled-periods list. */
  lemma RehalveTerminates(s: Snapshot, task: Slot)
    requires Consistent(s) && task in s.lists[Doubled.Index()]
    ensures Consistent(RehalveStep(s, task))
    ensures var r := Utilities(RehalveStep(s, task));
      DoubledWeight(r.ts, r.lists[Doubled.Index()], NUM_OF_TASKS) < DoubledWeight(s.ts, s.lists[Doubled.Index()], NUM_OF_TASKS)
  {
    var s1 := RehalveStep(s, task);
    RehalveStepKeeps(s, task);
    RehalveStepWeighs(s, task);
    UtilitiesKeepWeight(s1);
    DoubledWeightOneSlot(s.ts, s.lists[Doubled.Index()], s1.ts, s1.lists[Doubled.Index()], task, NUM_OF_TASKS);
  }

  /** q0_extract, the removal count, then TOTAL_SKIPS: the order of the source gives the unhooked state. */
  lemma UnhookedOrder(s: Snapshot, t: Slot, a: Snapshot, b: Snapshot, r: TaskRecord, c: Snapshot)
    requires Shaped(s) && t in s.lists[ExtractHeader(s.ts[t].state).Index()]
    requires a == Out(s, ExtractHeader(s.ts[t].state), t)
    requires b == a.(counters := Counted(a.counters, Removals, 1)) && r == b.ts[t]
    requires c == WithRecord(b, t, r.WithSpare2(Wrap32(r.TotalSkips() as int + 1)))
    ensures c == Unhooked(s, t)
  {
  }

  /** Before the ADAP-7 requeueing, the queues are well formed; afterwards the candidate is off the doubled-periods queue. */
  lemma RequeueQueues(s: Snapshot, c: Slot)
    requires Consistent(s) && s.alg == Adap07
    ensures QueuesOk(s.ls, s.hs, s.lists) && 0 !in s.lists[Doubled.Index()]
    ensures c != 0 ==> var d := Doubling(Q1Out(s, c), c); QueuesOk(d.ls, d.hs, d.lists) && c !in d.lists[Doubled.Index()]
  {
    QueueLinked(s, Doubled);
    if c != 0 {
      MemberFits(s, c);
      ConsistentForAllBut(s, c);
      Q1OutBut(s, c);
      DoublingBut(Q1Out(s, c), c);
      RequeuedRoleFits(s, c);
    }
  }

  /** A completed periodic task is on no q0 queue and the queues are well formed. */
  lemma CompletedQueues(s: Snapshot, now: u32)
    requires Consistent(s) && Finished(s)
    ensures var t := s.running; t != 0 && QueuesOk(s.ls, s.hs, s.lists) && t !in s.lists[Queue.Idle.Index()]
  {
    var t := s.running;
    CompletedBut(s, now);
    RunningUnqueued(s.lists, t, s.ts[t].periodMultiplier >= 1, s.alg);
  }

  /** The counter writes of TSK_task_completed are those of CompletionCounted. */
  lemma CompletionBooked(c: seq<u32>, c': seq<u32>, r: TaskRecord, now: u32)
    requires |c| == TST_MAX_TST && |c'| == TST_MAX_TST
    requires r.absDline >= now ==>
      c'[DeadlineMet.Index()] == Wrap32(c[DeadlineMet.Index()] as int + 1)
      && c'[Value.Index()] == Wrap32(c[Value.Index()] as int + r.netValue)
      && c'[DeadlineMissed.Index()] == c[DeadlineMissed.Index()]
    requires r.absDline < now ==>
      c'[DeadlineMissed.Index()] == Wrap32(c[DeadlineMissed.Index()] as int + 1)
      && c'[Value.Index()] == c[Value.Index()] && c'[DeadlineMet.Index()] == c[DeadlineMet.Index()]
    requires forall k: Counter :: k !in {DeadlineMet, DeadlineMissed, Value} ==> c'[k.Index()] == c[k.Index()]
    ensures c' == CompletionCounted(c, r, now)
  {
    var e := CompletionCounted(c, r, now);
    forall i | 0 <= i < TST_MAX_TST ensures c'[i] == e[i]
    {
      var k := CounterAt(i);
    }
  }

  /** The counter whose line of the report table is i. */
  function CounterAt(i: nat): (k: Counter)
    requires i < TST_MAX_TST
    ensures k.Index() == i
  {
    [Duration, Preempts, Skips, Removals, PerDoubles, DeadlineMissed, DeadlineMet, Value, Utility][i]
  }

  /** The re-armed skipped head is on no q0 queue and the queues are well formed. */
  lemma SkippedPassQueues(s: Snapshot, now: u32)
    requires Consistent(s) && Due(s, Queue.Skipped, now)
    ensures var t := s.lists[Queue.Skipped.Index()][0]; var r := SkippedReleased(s, now);
      t != 0 && QueuesOk(r.ls, r.hs, r.lists) && Unqueued(r.lists, Q0, t)
  {
    SkippedReleasedBut(s, now);
    SkippedFitsTarget(s, now);
  }

  /** Under the queue invariant every header threads its list. */
  lemma QueueLinked(s: Snapshot, h: Queue)
    requires Shaped(s) && QueuesOk(s.ls, s.hs, s.lists)
    ensures Linked(s.ls, h.Link(), s.hs[h.Index()].Next(h.Link()), s.lists[h.Index()])
  {
  }

  /** Under the queue invariant, the writes of q1_extract are those of Q1Out. */
  lemma Q1OutWrites(s: Snapshot, task: Slot)
    requires Shaped(s) && QueuesOk(s.ls, s.hs, s.lists)
    ensures var c := UnlinkQ1(Cells(s.ls, s.hs[Doubled.Index()]), task);
      var l := s.lists[Doubled.Index()];
      Q1Out(s, task) == s.(ls := c.ls, hs := s.hs[Doubled.Index() := c.hd],
                           lists := if task in l then RemovedLists(s.lists, Doubled, IndexOf(l, task)) else s.lists)
  {
    var l := s.lists[Doubled.Index()];
    UnlinkQ1KeepsQueuesOk(s.ls, s.hs, s.lists, task);
    if task in l {
      var k := IndexOf(l, task);
      assert l[k] == task;
    } else {
      assert s.hs[Doubled.Index() := s.hs[Doubled.Index()]] == s.hs;
    }
  }

  /** Cleared links in every slot but 0 and in every header make seven empty, well-formed queues. */
  lemma EmptyQueuesOk(ls: seq<Links>, hs: seq<Links>)
    requires |ls| == NUM_OF_TASKS && |hs| == NUM_OF_QUEUES
    requires forall i :: 1 <= i < NUM_OF_TASKS ==> ls[i] == NoLinks
    requires forall i :: 0 <= i < NUM_OF_QUEUES ==> hs[i] == NoLinks
    ensures ls[0] == NoLinks ==> QueuesOk(ls, hs, seq(NUM_OF_QUEUES, _ => []))
  {
    var lists: seq<seq<Slot>> := seq(NUM_OF_QUEUES, _ => []);
    forall h: Queue ensures Linked(ls, h.Link(), hs[h.Index()].Next(h.Link()), lists[h.Index()])
    {
      assert hs[h.Index()] == NoLinks;
    }
  }
}

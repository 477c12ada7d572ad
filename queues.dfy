// The intrusive queue engine of scheduler.c, as the link writes it performs on
// the task arena and on a header, and the list each header then denotes.
//
// A queue is a doubly linked list threaded through one link set (q0, q1 or q2)
// of the task records. Slot indices are the links and 0 is the null link, so
// the abstract list of a header is a sequence of non-zero, distinct slots.

module Queues {
  import opened CTypes
  import opened Task

  /** `algorithm_type` (scheduler.h:35-63), in declaration order. */
  datatype Algorithm =
    | Cyc | Rr | Rm | Irm | Drm | Edf | Spt | Llf | Mllf | Muf | Mmuf | Mmmuf
    | DStar | DdStar | DOver | RmRto | EdfRto | EdfBwp
    | Adap01 | Adap02 | Adap03 | Adap04 | Adap05 | Adap06 | Adap07 | MaxAlg

  const NUM_OF_QUEUES: nat := 7

  /** The seven queue headers: ready, idle, skipped, lst, removed, waiting and doubled periods. */
  datatype Queue = Ready | Idle | Skipped | Lst | Removed | Waiting | Doubled
  {
    function Index(): (i: nat)
      ensures i < NUM_OF_QUEUES
    {
      match this
      case Ready => 0
      case Idle => 1
      case Skipped => 2
      case Lst => 3
      case Removed => 4
      case Waiting => 5
      case Doubled => 6
    }

    /** The link set the header's list is threaded through. */
    function Link(): LinkSet
    {
      match this
      case Lst => Q2
      case Doubled => Q1
      case _ => Q0
    }
  }

  lemma QueueIndexInjective(g: Queue, h: Queue)
    ensures g.Index() == h.Index() <==> g == h
  {
  }

  // ----------------------------------------------------------------------
  // Link cells of the arena: `ls[i]` holds the six link fields of slot i

  function NextOf(ls: seq<Links>, q: LinkSet, i: Slot): Slot
    requires |ls| == NUM_OF_TASKS
  {
    ls[i].Next(q)
  }

  function PrevOf(ls: seq<Links>, q: LinkSet, i: Slot): Slot
    requires |ls| == NUM_OF_TASKS
  {
    ls[i].Prev(q)
  }

  /** `tasks[i]->qN_next = v`. */
  function SetNext(ls: seq<Links>, q: LinkSet, i: Slot, v: Slot): (r: seq<Links>)
    requires |ls| == NUM_OF_TASKS
    ensures |r| == NUM_OF_TASKS
    ensures forall j: Slot, p :: NextOf(r, p, j) == if j == i && p == q then v else NextOf(ls, p, j)
    ensures forall j: Slot, p :: PrevOf(r, p, j) == PrevOf(ls, p, j)
  {
    ls[i := ls[i].WithNext(q, v)]
  }

  /** `tasks[i]->qN_prev = v`. */
  function SetPrev(ls: seq<Links>, q: LinkSet, i: Slot, v: Slot): (r: seq<Links>)
    requires |ls| == NUM_OF_TASKS
    ensures |r| == NUM_OF_TASKS
    ensures forall j: Slot, p :: PrevOf(r, p, j) == if j == i && p == q then v else PrevOf(ls, p, j)
    ensures forall j: Slot, p :: NextOf(r, p, j) == NextOf(ls, p, j)
  {
    ls[i := ls[i].WithPrev(q, v)]
  }

  /** The link column of the arena together with the header a queue operation works on. */
  datatype Cells = Cells(ls: seq<Links>, hd: Links)

  /** The element before position k, or the null link. */
  function Before(s: seq<Slot>, k: nat): Slot
    requires k <= |s|
  {
    if k == 0 then 0 else s[k - 1]
  }

  /** The element at position k, or the null link past the end. */
  function At(s: seq<Slot>, k: nat): Slot
  {
    if k < |s| then s[k] else 0
  }

  ghost predicate Distinct(s: seq<Slot>)
  {
    forall i, j :: 0 <= i < j < |s| ==> s[i] != s[j]
  }

  /**
   * `s` is the list threaded from `head` through link set `q`: non-null
   * distinct slots, each one's next link its successor (null at the end) and
   * each one's prev link its predecessor (null at the front).
   */
  ghost predicate Linked(ls: seq<Links>, q: LinkSet, head: Slot, s: seq<Slot>)
    requires |ls| == NUM_OF_TASKS
  {
    0 !in s && Distinct(s) && head == At(s, 0)
    && (forall k :: 0 <= k < |s| ==> NextOf(ls, q, s[k]) == At(s, k + 1))
    && (forall k :: 0 <= k < |s| ==> PrevOf(ls, q, s[k]) == Before(s, k))
  }

  /** Linkage reads only the list's own cells of its link set. */
  lemma LinkedFrame(ls: seq<Links>, ls': seq<Links>, q: LinkSet, head: Slot, s: seq<Slot>)
    requires |ls| == NUM_OF_TASKS && |ls'| == NUM_OF_TASKS && Linked(ls, q, head, s)
    requires forall x :: x in s ==> NextOf(ls', q, x) == NextOf(ls, q, x) && PrevOf(ls', q, x) == PrevOf(ls, q, x)
    ensures Linked(ls', q, head, s)
  {
    forall k | 0 <= k < |s|
      ensures NextOf(ls', q, s[k]) == At(s, k + 1) && PrevOf(ls', q, s[k]) == Before(s, k)
    {
      assert s[k] in s;
    }
  }

  // ----------------------------------------------------------------------
  // Insertion: the common linking code of q0_insert, q1_insert and q2_insert

  /**
   * The writes that link `task` between `prev` and `next` once the walk has
   * stopped: the predecessor's (or the header's) next link, the successor's
   * prev link, then the task's own two links.
   */
  function Splice(c: Cells, q: LinkSet, task: Slot, prev: Slot, next: Slot): (r: Cells)
    requires |c.ls| == NUM_OF_TASKS
    ensures |r.ls| == NUM_OF_TASKS
  {
    var c1 := if prev != 0 then c.(ls := SetNext(c.ls, q, prev, task)) else c.(hd := c.hd.WithNext(q, task));
    var c2 := if next != 0 then c1.(ls := SetPrev(c1.ls, q, next, task)) else c1;
    c2.(ls := SetPrev(SetNext(c2.ls, q, task, next), q, task, prev))
  }

  /** What Splice writes into one cell, for a task other than its neighbours. */
  lemma SpliceAt(c: Cells, q: LinkSet, task: Slot, prev: Slot, next: Slot, j: Slot, p: LinkSet)
    requires |c.ls| == NUM_OF_TASKS && task != prev && task != next
    ensures var r := Splice(c, q, task, prev, next);
      && NextOf(r.ls, p, j) == (if p != q then NextOf(c.ls, p, j)
                                else if j == task then next
                                else if j == prev && prev != 0 then task
                                else NextOf(c.ls, p, j))
      && PrevOf(r.ls, p, j) == (if p != q then PrevOf(c.ls, p, j)
                                else if j == task then prev
                                else if j == next && next != 0 then task
                                else PrevOf(c.ls, p, j))
  {
  }

  /** Splice moves the header of its own link set only when linking at the front. */
  lemma SpliceHeader(c: Cells, q: LinkSet, task: Slot, prev: Slot, next: Slot)
    requires |c.ls| == NUM_OF_TASKS
    ensures var r := Splice(c, q, task, prev, next);
      && r.hd.Next(q) == (if prev == 0 then task else c.hd.Next(q))
      && (forall p :: p != q ==> r.hd.Next(p) == c.hd.Next(p))
  {
  }

  /** The list with `task` at position k: its shape. */
  lemma InsertedSeq(s: seq<Slot>, task: Slot, k: nat)
    requires 0 !in s && Distinct(s) && task != 0 && task !in s && k <= |s|
    ensures var s' := s[..k] + [task] + s[k..];
      && |s'| == |s| + 1 && 0 !in s' && Distinct(s')
      && (forall i :: 0 <= i < k ==> s'[i] == s[i])
      && s'[k] == task
      && (forall i :: k < i < |s'| ==> s'[i] == s[i - 1])
  {
    var s' := s[..k] + [task] + s[k..];
    assert forall i :: 0 <= i < k ==> s'[i] == s[i];
    assert forall i :: k < i < |s'| ==> s'[i] == s[i - 1];
    forall i, j | 0 <= i < j < |s'| ensures s'[i] != s'[j]
    {
      if i == k { assert s'[j] in s; } else if j == k { assert s'[i] in s; }
    }
    assert 0 !in s' by {
      forall i | 0 <= i < |s'| ensures s'[i] != 0 {
        if i != k { assert s'[i] in s; }
      }
    }
  }

  /**
   * Any link column whose q cells are those of `ls` rewired around `task` at
   * position k threads the list with the task inserted there.
   */
  lemma RewiredInserts(ls: seq<Links>, ls': seq<Links>, q: LinkSet, head: Slot, head': Slot, s: seq<Slot>, task: Slot, k: nat)
    requires |ls| == NUM_OF_TASKS && |ls'| == NUM_OF_TASKS && Linked(ls, q, head, s)
    requires task != 0 && task !in s && k <= |s|
    requires forall j: Slot :: NextOf(ls', q, j) ==
               if j == task then At(s, k) else if j == Before(s, k) && k > 0 then task else NextOf(ls, q, j)
    requires forall j: Slot :: PrevOf(ls', q, j) ==
               if j == task then Before(s, k) else if j == At(s, k) && k < |s| then task else PrevOf(ls, q, j)
    requires head' == if k == 0 then task else head
    ensures Linked(ls', q, head', s[..k] + [task] + s[k..])
  {
    var s' := s[..k] + [task] + s[k..];
    InsertedSeq(s, task, k);
    forall i | 0 <= i < |s'|
      ensures NextOf(ls', q, s'[i]) == At(s', i + 1)
    {
      if i < k - 1 {
        assert s'[i] != s[k - 1];
      } else if i > k {
        assert s'[i] == s[i - 1] && (k == 0 || s[i - 1] != s[k - 1]);
      }
    }
    forall i | 0 <= i < |s'|
      ensures PrevOf(ls', q, s'[i]) == Before(s', i)
    {
      if i < k {
        assert k < |s| ==> s'[i] != s[k];
      } else if i > k + 1 {
        assert s'[i] == s[i - 1] && s[i - 1] != s[k];
      }
    }
  }

  /**
   * Linking a task that is not on the list at position k (between its
   * (k-1)th and kth elements) gives the list with the task inserted there.
   */
  lemma SpliceInserts(c: Cells, q: LinkSet, s: seq<Slot>, task: Slot, k: nat)
    requires |c.ls| == NUM_OF_TASKS && Linked(c.ls, q, c.hd.Next(q), s)
    requires task != 0 && task !in s && k <= |s|
    ensures Linked(Splice(c, q, task, Before(s, k), At(s, k)).ls, q,
                   Splice(c, q, task, Before(s, k), At(s, k)).hd.Next(q), s[..k] + [task] + s[k..])
  {
    var prev, next := Before(s, k), At(s, k);
    assert prev != task && next != task by {
      assert k > 0 ==> s[k - 1] in s;
      assert k < |s| ==> s[k] in s;
    }
    assert (prev != 0 <==> k > 0) && (next != 0 <==> k < |s|) by {
      assert k > 0 ==> s[k - 1] in s;
      assert k < |s| ==> s[k] in s;
    }
    var r := Splice(c, q, task, prev, next);
    SpliceHeader(c, q, task, prev, next);
    forall j: Slot ensures NextOf(r.ls, q, j) == (if j == task then next else if j == prev && k > 0 then task else NextOf(c.ls, q, j))
                       && PrevOf(r.ls, q, j) == (if j == task then prev else if j == next && k < |s| then task else PrevOf(c.ls, q, j))
    {
      SpliceAt(c, q, task, prev, next, j, q);
    }
    RewiredInserts(c.ls, r.ls, q, c.hd.Next(q), r.hd.Next(q), s, task, k);
  }

  /** Splice touches only the task and its two neighbours, and only link set `q`. */
  lemma SpliceFrame(c: Cells, q: LinkSet, s: seq<Slot>, task: Slot, k: nat, x: Slot, p: LinkSet)
    requires |c.ls| == NUM_OF_TASKS && Linked(c.ls, q, c.hd.Next(q), s)
    requires task != 0 && task !in s && k <= |s|
    requires p != q || (x != task && x !in s)
    ensures var r := Splice(c, q, task, Before(s, k), At(s, k));
      NextOf(r.ls, p, x) == NextOf(c.ls, p, x) && PrevOf(r.ls, p, x) == PrevOf(c.ls, p, x)
  {
    assert Before(s, k) in s || Before(s, k) == 0;
    assert At(s, k) in s || At(s, k) == 0;
    SpliceAt(c, q, task, Before(s, k), At(s, k), x, p);
  }

  /** What the splice of task 0 writes into the cell of a real task j. */
  lemma NullSpliceAt(c: Cells, q: LinkSet, prev: Slot, next: Slot, j: Slot)
    requires |c.ls| == NUM_OF_TASKS && j != 0
    ensures var r := Splice(c, q, 0, prev, next);
      && NextOf(r.ls, q, j) == (if j == prev then 0 else NextOf(c.ls, q, j))
      && PrevOf(r.ls, q, j) == (if j == next then 0 else PrevOf(c.ls, q, j))
  {
  }

  /**
   * Cells in which the element before position k lost its next link and the
   * element at k its prev link hold the list cut at k.
   */
  lemma RewiredTruncates(ls: seq<Links>, ls': seq<Links>, q: LinkSet, head: Slot, head': Slot, s: seq<Slot>, k: nat)
    requires |ls| == NUM_OF_TASKS && |ls'| == NUM_OF_TASKS && Linked(ls, q, head, s) && k <= |s|
    requires head' == At(s[..k], 0)
    requires forall j: Slot :: j != 0 ==> NextOf(ls', q, j) == (if j == Before(s, k) then 0 else NextOf(ls, q, j))
    requires forall j: Slot :: j != 0 ==> PrevOf(ls', q, j) == (if j == At(s, k) then 0 else PrevOf(ls, q, j))
    ensures Linked(ls', q, head', s[..k])
  {
    var t := s[..k];
    forall i | 0 <= i < |t|
      ensures NextOf(ls', q, t[i]) == At(t, i + 1) && PrevOf(ls', q, t[i]) == Before(t, i)
    {
      assert t[i] == s[i] && s[i] in s;
      assert i + 1 < k ==> t[i + 1] == s[i + 1];
      assert i > 0 ==> t[i - 1] == s[i - 1];
      assert k < |s| ==> s[k] != s[i];
      assert i != k - 1 ==> s[i] != s[k - 1];
    }
    assert Distinct(t);
  }

  /**
   * The splice with the null task 0, as q1_insert runs it when ADAP-6 or
   * ADAP-7 pass it the 0 their candidate search returns once no task is
   * left: the predecessor's (or the header's) next link becomes 0, so the
   * list read from the header ends at the walk's position and the tasks from
   * there on are no longer on the queue.
   */
  lemma NullSpliceTruncates(c: Cells, q: LinkSet, s: seq<Slot>, k: nat)
    requires |c.ls| == NUM_OF_TASKS && Linked(c.ls, q, c.hd.Next(q), s) && k <= |s|
    ensures var r := Splice(c, q, 0, Before(s, k), At(s, k));
      Linked(r.ls, q, r.hd.Next(q), s[..k])
    ensures k < |s| ==> s[k] !in s[..k]
  {
    var prev, next := Before(s, k), At(s, k);
    var r := Splice(c, q, 0, prev, next);
    assert k > 0 ==> s[k - 1] in s;
    SpliceHeader(c, q, 0, prev, next);
    assert r.hd.Next(q) == At(s[..k], 0);
    forall j: Slot | j != 0
      ensures NextOf(r.ls, q, j) == (if j == prev then 0 else NextOf(c.ls, q, j))
      ensures PrevOf(r.ls, q, j) == (if j == next then 0 else PrevOf(c.ls, q, j))
    {
      NullSpliceAt(c, q, prev, next, j);
    }
    RewiredTruncates(c.ls, r.ls, q, c.hd.Next(q), r.hd.Next(q), s, k);
    if k < |s| {
      forall i | 0 <= i < k ensures s[..k][i] != s[k] {}
    }
  }

  /**
   * A concrete case of the loss: the doubled-periods queue kept in priority
   * order (ADAP-6) and slot 0 with priority 0. The walk stops at once, the
   * header is set to 0, and the whole non-empty queue reads as empty.
   */
  lemma NullInsertEmptiesQueue(c: Cells, ts: seq<TaskRecord>, s: seq<Slot>)
    requires |c.ls| == NUM_OF_TASKS && |ts| == NUM_OF_TASKS && Linked(c.ls, Q1, c.hd.Next(Q1), s)
    requires s != [] && ts[0].priority == 0
    ensures InsertIndex(ByPriority, ts, s, ts[0]) == 0
    ensures var r := Splice(c, Q1, 0, Before(s, 0), At(s, 0));
      r.hd.Next(Q1) == 0 && Linked(r.ls, Q1, r.hd.Next(Q1), [])
  {
    NullSpliceTruncates(c, Q1, s, 0);
    assert s[..0] == [];
  }

  // ----------------------------------------------------------------------
  // Removal

  /** The result of q_extract_first: the cells after the call and the id returned. */
  datatype Extracted = Extracted(cells: Cells, id: Slot)

  /**
   * q_extract_first on a q0 list: the header moves to the head's successor and
   * the successor's prev link (slot 0's when there is none) is cleared. The
   * extracted task keeps its own links.
   */
  function ExtractFirst(c: Cells): (r: Extracted)
    requires |c.ls| == NUM_OF_TASKS
    ensures |r.cells.ls| == NUM_OF_TASKS
  {
    var p := c.hd.Next(Q0);
    if p != 0 then
      var n := NextOf(c.ls, Q0, p);
      Extracted(Cells(SetPrev(c.ls, Q0, n, 0), c.hd.WithNext(Q0, n)), p)
    else
      Extracted(c, 0)
  }

  /** q_extract_first returns 0 on an empty queue; otherwise the old head, leaving the rest of the list. */
  lemma ExtractFirstRemovesHead(c: Cells, s: seq<Slot>)
    requires |c.ls| == NUM_OF_TASKS && Linked(c.ls, Q0, c.hd.Next(Q0), s)
    ensures s == [] ==> ExtractFirst(c).id == 0 && ExtractFirst(c).cells == c
    ensures s != [] ==> ExtractFirst(c).id == s[0]
                        && Linked(ExtractFirst(c).cells.ls, Q0, ExtractFirst(c).cells.hd.Next(Q0), s[1..])
  {
    if s != [] {
      var r := ExtractFirst(c);
      RemovedSeq(s, 0);
      assert s[..0] + s[1..] == s[1..];
      var s' := s[1..];
      forall i | 0 <= i < |s'|
        ensures NextOf(r.cells.ls, Q0, s'[i]) == At(s', i + 1) && PrevOf(r.cells.ls, Q0, s'[i]) == Before(s', i)
      {
        if i > 0 { assert s'[i] != s[1]; }
      }
    }
  }

  /** q_extract_first writes only the successor's (or slot 0's) q0 prev link. */
  lemma ExtractFirstFrame(c: Cells, s: seq<Slot>, x: Slot, p: LinkSet)
    requires |c.ls| == NUM_OF_TASKS && Linked(c.ls, Q0, c.hd.Next(Q0), s)
    requires p != Q0 || x != At(s, 1)
    ensures NextOf(ExtractFirst(c).cells.ls, p, x) == NextOf(c.ls, p, x)
    ensures PrevOf(ExtractFirst(c).cells.ls, p, x) == PrevOf(c.ls, p, x)
    ensures p != Q0 ==> ExtractFirst(c).cells.hd.Next(p) == c.hd.Next(p)
  {
  }

  /**
   * q0_extract and q2_extract: the predecessor (or the header) skips the task,
   * the successor points back past it, and the task's two links are cleared.
   */
  function Unlink(c: Cells, q: LinkSet, task: Slot): (r: Cells)
    requires |c.ls| == NUM_OF_TASKS
    ensures |r.ls| == NUM_OF_TASKS
  {
    var p := PrevOf(c.ls, q, task);
    var n := NextOf(c.ls, q, task);
    var c1 := if p == 0 then c.(hd := c.hd.WithNext(q, n)) else c.(ls := SetNext(c.ls, q, p, n));
    var c2 := if n != 0 then c1.(ls := SetPrev(c1.ls, q, n, p)) else c1;
    c2.(ls := SetNext(SetPrev(c2.ls, q, task, 0), q, task, 0))
  }

  /**
   * q1_extract: as Unlink, except that the header is only moved when the task
   * is its first element; otherwise the predecessor's next link is written,
   * slot 0's when the task has no predecessor.
   */
  function UnlinkQ1(c: Cells, task: Slot): (r: Cells)
    requires |c.ls| == NUM_OF_TASKS
    ensures |r.ls| == NUM_OF_TASKS
  {
    var p := PrevOf(c.ls, Q1, task);
    var n := NextOf(c.ls, Q1, task);
    var c1 := if p == 0 && c.hd.Next(Q1) == task then c.(hd := c.hd.WithNext(Q1, n))
              else c.(ls := SetNext(c.ls, Q1, p, n));
    var c2 := if n != 0 then c1.(ls := SetPrev(c1.ls, Q1, n, p)) else c1;
    c2.(ls := SetNext(SetPrev(c2.ls, Q1, task, 0), Q1, task, 0))
  }

  /** What Unlink writes into one cell, when the task's neighbours are other slots. */
  lemma UnlinkAt(c: Cells, q: LinkSet, task: Slot, j: Slot, l: LinkSet)
    requires |c.ls| == NUM_OF_TASKS
    requires PrevOf(c.ls, q, task) != task && NextOf(c.ls, q, task) != task
    ensures var p, n := PrevOf(c.ls, q, task), NextOf(c.ls, q, task);
      var r := Unlink(c, q, task);
      && NextOf(r.ls, l, j) == (if l != q then NextOf(c.ls, l, j)
                                else if j == task then 0
                                else if j == p && p != 0 then n
                                else NextOf(c.ls, l, j))
      && PrevOf(r.ls, l, j) == (if l != q then PrevOf(c.ls, l, j)
                                else if j == task then 0
                                else if j == n && n != 0 then p
                                else PrevOf(c.ls, l, j))
  {
  }

  /** Unlink moves the header of its own link set only when the task has no predecessor. */
  lemma UnlinkHeader(c: Cells, q: LinkSet, task: Slot)
    requires |c.ls| == NUM_OF_TASKS
    ensures var r := Unlink(c, q, task);
      && r.hd.Next(q) == (if PrevOf(c.ls, q, task) == 0 then NextOf(c.ls, q, task) else c.hd.Next(q))
      && (forall l :: l != q ==> r.hd.Next(l) == c.hd.Next(l))
  {
  }

  /** The list without its kth element: its shape. */
  lemma RemovedSeq(s: seq<Slot>, k: nat)
    requires 0 !in s && Distinct(s) && k < |s|
    ensures var s' := s[..k] + s[k + 1..];
      && |s'| == |s| - 1 && 0 !in s' && Distinct(s') && s[k] !in s'
      && (forall i :: 0 <= i < k ==> s'[i] == s[i])
      && (forall i :: k <= i < |s'| ==> s'[i] == s[i + 1])
      && (forall x :: x in s' ==> x in s)
  {
    var s' := s[..k] + s[k + 1..];
    assert forall i :: 0 <= i < k ==> s'[i] == s[i];
    assert forall i :: k <= i < |s'| ==> s'[i] == s[i + 1];
    forall x | x in s' ensures x in s && x != s[k]
    {
      var i :| 0 <= i < |s'| && s'[i] == x;
      if i < k { assert s[i] == x; } else { assert s[i + 1] == x; }
    }
  }

  /**
   * Any link column whose q cells are those of `ls` rewired around the kth
   * element threads the list without it.
   */
  lemma RewiredRemoves(ls: seq<Links>, ls': seq<Links>, q: LinkSet, head: Slot, head': Slot, s: seq<Slot>, k: nat)
    requires |ls| == NUM_OF_TASKS && |ls'| == NUM_OF_TASKS && Linked(ls, q, head, s) && k < |s|
    requires forall j: Slot :: NextOf(ls', q, j) ==
               if j == s[k] then 0 else if j == Before(s, k) && k > 0 then At(s, k + 1) else NextOf(ls, q, j)
    requires forall j: Slot :: PrevOf(ls', q, j) ==
               if j == s[k] then 0 else if j == At(s, k + 1) && k + 1 < |s| then Before(s, k) else PrevOf(ls, q, j)
    requires head' == if k == 0 then At(s, 1) else head
    ensures Linked(ls', q, head', s[..k] + s[k + 1..])
  {
    RemovedSeq(s, k);
    RewiredRemovesNext(ls, ls', q, s, k);
    RewiredRemovesPrev(ls, ls', q, s, k);
  }

  lemma RewiredRemovesNext(ls: seq<Links>, ls': seq<Links>, q: LinkSet, s: seq<Slot>, k: nat)
    requires |ls| == NUM_OF_TASKS && |ls'| == NUM_OF_TASKS && Distinct(s) && k < |s|
    requires forall i :: 0 <= i < |s| ==> NextOf(ls, q, s[i]) == At(s, i + 1)
    requires forall j: Slot :: NextOf(ls', q, j) ==
               if j == s[k] then 0 else if j == Before(s, k) && k > 0 then At(s, k + 1) else NextOf(ls, q, j)
    ensures var s' := s[..k] + s[k + 1..];
      forall i :: 0 <= i < |s'| ==> NextOf(ls', q, s'[i]) == At(s', i + 1)
  {
    var s' := s[..k] + s[k + 1..];
    forall i | 0 <= i < |s'|
      ensures NextOf(ls', q, s'[i]) == At(s', i + 1)
    {
      if i < k - 1 {
        assert s'[i] == s[i] && s[i] != s[k - 1] && s[i] != s[k];
        assert s'[i + 1] == s[i + 1];
      } else if i == k - 1 {
        assert s'[i] == s[k - 1] && s[k - 1] != s[k];
        assert i + 1 < |s'| ==> s'[i + 1] == s[k + 1];
      } else {
        assert s'[i] == s[i + 1] && s[i + 1] != s[k] && (k == 0 || s[i + 1] != s[k - 1]);
        assert i + 1 < |s'| ==> s'[i + 1] == s[i + 2];
      }
    }
  }

  lemma RewiredRemovesPrev(ls: seq<Links>, ls': seq<Links>, q: LinkSet, s: seq<Slot>, k: nat)
    requires |ls| == NUM_OF_TASKS && |ls'| == NUM_OF_TASKS && Distinct(s) && k < |s|
    requires forall i :: 0 <= i < |s| ==> PrevOf(ls, q, s[i]) == Before(s, i)
    requires forall j: Slot :: PrevOf(ls', q, j) ==
               if j == s[k] then 0 else if j == At(s, k + 1) && k + 1 < |s| then Before(s, k) else PrevOf(ls, q, j)
    ensures var s' := s[..k] + s[k + 1..];
      forall i :: 0 <= i < |s'| ==> PrevOf(ls', q, s'[i]) == Before(s', i)
  {
    var s' := s[..k] + s[k + 1..];
    forall i | 0 <= i < |s'|
      ensures PrevOf(ls', q, s'[i]) == Before(s', i)
    {
      if i < k {
        assert s'[i] == s[i] && s[i] != s[k] && (k + 1 == |s| || s[i] != s[k + 1]);
        assert i > 0 ==> s'[i - 1] == s[i - 1];
      } else if i == k {
        assert s'[i] == s[k + 1] && s[k + 1] != s[k];
        assert i > 0 ==> s'[i - 1] == s[k - 1];
      } else {
        assert s'[i] == s[i + 1] && s[i + 1] != s[k] && s[i + 1] != s[k + 1];
        assert s'[i - 1] == s[i];
      }
    }
  }

  /** Unlinking the kth element splices it out: the others keep their order. */
  lemma UnlinkRemoves(c: Cells, q: LinkSet, s: seq<Slot>, k: nat)
    requires |c.ls| == NUM_OF_TASKS && Linked(c.ls, q, c.hd.Next(q), s) && k < |s|
    ensures Linked(Unlink(c, q, s[k]).ls, q, Unlink(c, q, s[k]).hd.Next(q), s[..k] + s[k + 1..])
    ensures NextOf(Unlink(c, q, s[k]).ls, q, s[k]) == 0 && PrevOf(Unlink(c, q, s[k]).ls, q, s[k]) == 0
  {
    var task := s[k];
    var p, n := Before(s, k), At(s, k + 1);
    assert (p != 0 <==> k > 0) && (n != 0 <==> k + 1 < |s|) && p != task && n != task by {
      assert k > 0 ==> s[k - 1] in s && s[k - 1] != s[k];
      assert k + 1 < |s| ==> s[k + 1] in s && s[k + 1] != s[k];
    }
    var r := Unlink(c, q, task);
    UnlinkHeader(c, q, task);
    forall j: Slot ensures NextOf(r.ls, q, j) == (if j == task then 0 else if j == p && k > 0 then n else NextOf(c.ls, q, j))
                       && PrevOf(r.ls, q, j) == (if j == task then 0 else if j == n && k + 1 < |s| then p else PrevOf(c.ls, q, j))
    {
      UnlinkAt(c, q, task, j, q);
    }
    RewiredRemoves(c.ls, r.ls, q, c.hd.Next(q), r.hd.Next(q), s, k);
  }

  /** Unlinking a member touches only it and its two neighbours, and only link set `q`. */
  lemma UnlinkFrame(c: Cells, q: LinkSet, s: seq<Slot>, k: nat, x: Slot, l: LinkSet)
    requires |c.ls| == NUM_OF_TASKS && Linked(c.ls, q, c.hd.Next(q), s) && k < |s|
    requires l != q || x !in s
    ensures NextOf(Unlink(c, q, s[k]).ls, l, x) == NextOf(c.ls, l, x)
    ensures PrevOf(Unlink(c, q, s[k]).ls, l, x) == PrevOf(c.ls, l, x)
  {
    assert k > 0 ==> s[k - 1] != s[k] && s[k - 1] in s;
    assert k + 1 < |s| ==> s[k + 1] != s[k] && s[k + 1] in s;
    UnlinkAt(c, q, s[k], x, l);
  }

  /** q1_extract of a member behaves as Unlink. */
  lemma UnlinkQ1Member(c: Cells, s: seq<Slot>, k: nat)
    requires |c.ls| == NUM_OF_TASKS && Linked(c.ls, Q1, c.hd.Next(Q1), s) && k < |s|
    ensures UnlinkQ1(c, s[k]) == Unlink(c, Q1, s[k])
  {
    if k > 0 {
      assert s[0] != s[k];
    }
  }

  /**
   * q1_extract of a task that is not queued and has clear q1 links changes
   * nothing: it writes slot 0's q1 next link, or the header's, with the 0
   * they already hold.
   */
  lemma UnlinkQ1NonMember(c: Cells, s: seq<Slot>, task: Slot)
    requires |c.ls| == NUM_OF_TASKS && Linked(c.ls, Q1, c.hd.Next(Q1), s)
    requires task !in s && PrevOf(c.ls, Q1, task) == 0 && NextOf(c.ls, Q1, task) == 0
    requires NextOf(c.ls, Q1, 0) == 0
    ensures UnlinkQ1(c, task) == c
  {
    assert c.ls[task].WithPrev(Q1, 0) == c.ls[task];
    assert c.ls[task].WithNext(Q1, 0) == c.ls[task];
    assert c.ls[0].WithNext(Q1, 0) == c.ls[0];
    if c.hd.Next(Q1) == task {
      assert c.hd.WithNext(Q1, 0) == c.hd;
    }
  }

  // ----------------------------------------------------------------------
  // Ordered insertion

  /** The key a walk compares, per algorithm family. */
  datatype Order = ByPriority | ByUrgency | ByTimeLeft | ByDeadline | ByLaxity | ByEPriority | Unordered

  /** The switch of q0_insert. */
  function Q0Order(alg: Algorithm): Order
  {
    match alg
    case Rm => ByPriority
    case Drm => ByPriority
    case Muf => ByUrgency
    case Mmuf => ByUrgency
    case Mmmuf => ByUrgency
    case Spt => ByTimeLeft
    case Adap01 => ByDeadline
    case Adap02 => ByDeadline
    case Adap03 => ByDeadline
    case Adap04 => ByDeadline
    case Adap05 => ByDeadline
    case Adap06 => ByDeadline
    case Adap07 => ByDeadline
    case EdfRto => ByDeadline
    case Edf => ByDeadline
    case Llf => ByLaxity
    case Mllf => ByLaxity
    case _ => Unordered
  }

  /** The switch of q1_insert. */
  function Q1Order(alg: Algorithm): Order
  {
    match alg
    case Rm => ByPriority
    case Llf => ByLaxity
    case Adap07 => ByEPriority
    case _ => Unordered
  }

  /** The switch of q2_insert. */
  function Q2Order(alg: Algorithm): Order
  {
    if alg == Llf then ByLaxity else Unordered
  }

  function OrderOf(q: LinkSet, alg: Algorithm): Order
  {
    match q
    case Q0 => Q0Order(alg)
    case Q1 => Q1Order(alg)
    case Q2 => Q2Order(alg)
  }

  /** The walk's loop test: inserting `t`, it moves on past `n`. */
  predicate Behind(o: Order, t: TaskRecord, n: TaskRecord)
  {
    match o
    case ByPriority => t.priority > n.priority
    case ByUrgency => t.MufUrgency() < n.MufUrgency()
    case ByTimeLeft => t.timeLeft >= n.timeLeft
    case ByDeadline => t.absDline >= n.absDline
    case ByLaxity => t.laxity > n.laxity
    case ByEPriority => t.ePriority > n.ePriority
    case Unordered => false
  }

  /** `a` may stand before `b` in a queue kept in order `o`. */
  predicate InOrder(o: Order, a: TaskRecord, b: TaskRecord)
  {
    match o
    case ByPriority => a.priority <= b.priority
    case ByUrgency => a.MufUrgency() >= b.MufUrgency()
    case ByTimeLeft => a.timeLeft <= b.timeLeft
    case ByDeadline => a.absDline <= b.absDline
    case ByLaxity => a.laxity <= b.laxity
    case ByEPriority => a.ePriority <= b.ePriority
    case Unordered => true
  }

  ghost predicate Sorted(o: Order, ts: seq<TaskRecord>, s: seq<Slot>)
    requires |ts| == NUM_OF_TASKS
  {
    forall i, j :: 0 <= i < j < |s| ==> InOrder(o, ts[s[i]], ts[s[j]])
  }

  /** Where the walk stops: the first element the new task does not go behind. */
  function InsertIndex(o: Order, ts: seq<TaskRecord>, s: seq<Slot>, t: TaskRecord): (k: nat)
    requires |ts| == NUM_OF_TASKS
    ensures k <= |s|
    ensures forall i :: 0 <= i < k ==> Behind(o, t, ts[s[i]])
    ensures k < |s| ==> !Behind(o, t, ts[s[k]])
  {
    if |s| == 0 || !Behind(o, t, ts[s[0]]) then 0
    else 1 + InsertIndex(o, ts, s[1..], t)
  }

  /** A position with the walk's exit property is the insertion index. */
  lemma {:induction false} InsertIndexUnique(o: Order, ts: seq<TaskRecord>, s: seq<Slot>, t: TaskRecord, k: nat)
    requires |ts| == NUM_OF_TASKS && k <= |s|
    requires forall i :: 0 <= i < k ==> Behind(o, t, ts[s[i]])
    requires k < |s| ==> !Behind(o, t, ts[s[k]])
    ensures k == InsertIndex(o, ts, s, t)
  {
    if k > 0 {
      assert Behind(o, t, ts[s[0]]);
      assert forall i :: 0 <= i < k - 1 ==> s[1..][i] == s[i + 1];
      InsertIndexUnique(o, ts, s[1..], t, k - 1);
    }
  }

  /** In a sorted queue the walk's test fails from the insertion index on. */
  lemma InsertIndexSplits(o: Order, ts: seq<TaskRecord>, s: seq<Slot>, t: TaskRecord)
    requires |ts| == NUM_OF_TASKS && Sorted(o, ts, s)
    ensures var k := InsertIndex(o, ts, s, t);
      forall i :: k <= i < |s| ==> !Behind(o, t, ts[s[i]])
  {
    var k := InsertIndex(o, ts, s, t);
    forall i | k < i < |s| ensures !Behind(o, t, ts[s[i]])
    {
      assert InOrder(o, ts[s[k]], ts[s[i]]);
    }
  }

  /** Inserting at the walk's position keeps a sorted queue sorted. */
  lemma InsertKeepsSorted(o: Order, ts: seq<TaskRecord>, s: seq<Slot>, task: Slot)
    requires |ts| == NUM_OF_TASKS && Sorted(o, ts, s)
    ensures var k := InsertIndex(o, ts, s, ts[task]);
      Sorted(o, ts, s[..k] + [task] + s[k..])
  {
    var t := ts[task];
    var k := InsertIndex(o, ts, s, t);
    InsertIndexSplits(o, ts, s, t);
    var s' := s[..k] + [task] + s[k..];
    forall i, j | 0 <= i < j < |s'| ensures InOrder(o, ts[s'[i]], ts[s'[j]])
    {
      if j < k {
        assert s'[i] == s[i] && s'[j] == s[j];
      } else if j == k {
        assert s'[i] == s[i] && Behind(o, t, ts[s[i]]);
      } else if i == k {
        assert s'[j] == s[j - 1] && !Behind(o, t, ts[s[j - 1]]);
      } else if i < k {
        assert s'[i] == s[i] && s'[j] == s[j - 1];
      } else {
        assert s'[i] == s[i - 1] && s'[j] == s[j - 1];
      }
    }
  }

  /**
   * Where q0_insert places a task in a sorted ready-style queue: deadline,
   * time-left and the other ascending keys, before or after equal keys as
   * each family's walk test decides; any algorithm outside the switch links
   * the task at the head.
   */
  lemma Q0Placement(alg: Algorithm, ts: seq<TaskRecord>, s: seq<Slot>, t: TaskRecord)
    requires |ts| == NUM_OF_TASKS && Sorted(Q0Order(alg), ts, s)
    ensures var k := InsertIndex(Q0Order(alg), ts, s, t);
      && (Q0Order(alg) == ByDeadline ==>
            (forall i :: 0 <= i < k ==> ts[s[i]].absDline <= t.absDline)
            && (forall i :: k <= i < |s| ==> t.absDline < ts[s[i]].absDline))
      && (Q0Order(alg) == ByTimeLeft ==>
            (forall i :: 0 <= i < k ==> ts[s[i]].timeLeft <= t.timeLeft)
            && (forall i :: k <= i < |s| ==> t.timeLeft < ts[s[i]].timeLeft))
      && (Q0Order(alg) == ByPriority ==>
            (forall i :: 0 <= i < k ==> ts[s[i]].priority < t.priority)
            && (forall i :: k <= i < |s| ==> t.priority <= ts[s[i]].priority))
      && (Q0Order(alg) == ByLaxity ==>
            (forall i :: 0 <= i < k ==> ts[s[i]].laxity < t.laxity)
            && (forall i :: k <= i < |s| ==> t.laxity <= ts[s[i]].laxity))
      && (Q0Order(alg) == ByUrgency ==>
            (forall i :: 0 <= i < k ==> ts[s[i]].MufUrgency() > t.MufUrgency())
            && (forall i :: k <= i < |s| ==> t.MufUrgency() >= ts[s[i]].MufUrgency()))
      && (Q0Order(alg) == Unordered ==> k == 0)
  {
    InsertIndexSplits(Q0Order(alg), ts, s, t);
  }

  // ----------------------------------------------------------------------
  // All seven queues together

  ghost predicate QueuesLinked(ls: seq<Links>, hs: seq<Links>, lists: seq<seq<Slot>>)
    requires |ls| == NUM_OF_TASKS && |hs| == NUM_OF_QUEUES && |lists| == NUM_OF_QUEUES
  {
    forall h: Queue :: Linked(ls, h.Link(), hs[h.Index()].Next(h.Link()), lists[h.Index()])
  }

  /** Lists threaded through the same link set share no task. */
  ghost predicate Separate(lists: seq<seq<Slot>>)
    requires |lists| == NUM_OF_QUEUES
  {
    forall g: Queue, h: Queue, x: Slot :: g != h && g.Link() == h.Link() && x in lists[g.Index()] ==> x !in lists[h.Index()]
  }

  /** True when no queue on link set `q` holds `task`. */
  ghost predicate Unqueued(lists: seq<seq<Slot>>, q: LinkSet, task: Slot)
    requires |lists| == NUM_OF_QUEUES
  {
    forall g: Queue :: g.Link() == q ==> task !in lists[g.Index()]
  }

  /** The lists after linking `task` into queue `h` at position k. */
  function InsertedLists(lists: seq<seq<Slot>>, h: Queue, task: Slot, k: nat): (l: seq<seq<Slot>>)
    requires |lists| == NUM_OF_QUEUES && k <= |lists[h.Index()]|
    ensures |l| == NUM_OF_QUEUES
  {
    var s := lists[h.Index()];
    lists[h.Index() := s[..k] + [task] + s[k..]]
  }

  /** Inserting into one queue keeps every queue linked and separate. */
  lemma InsertKeepsQueues(ls: seq<Links>, hs: seq<Links>, lists: seq<seq<Slot>>, h: Queue, task: Slot, k: nat)
    requires |ls| == NUM_OF_TASKS && |hs| == NUM_OF_QUEUES && |lists| == NUM_OF_QUEUES
    requires QueuesLinked(ls, hs, lists) && Separate(lists)
    requires task != 0 && Unqueued(lists, h.Link(), task) && k <= |lists[h.Index()]|
    ensures var s := lists[h.Index()];
      var r := Splice(Cells(ls, hs[h.Index()]), h.Link(), task, Before(s, k), At(s, k));
      && QueuesLinked(r.ls, hs[h.Index() := r.hd], InsertedLists(lists, h, task, k))
      && Separate(InsertedLists(lists, h, task, k))
  {
    var s := lists[h.Index()];
    var q := h.Link();
    var c := Cells(ls, hs[h.Index()]);
    var r := Splice(c, q, task, Before(s, k), At(s, k));
    var hs' := hs[h.Index() := r.hd];
    var lists' := InsertedLists(lists, h, task, k);
    SpliceInserts(c, q, s, task, k);
    forall g: Queue ensures Linked(r.ls, g.Link(), hs'[g.Index()].Next(g.Link()), lists'[g.Index()])
    {
      if g != h {
        var t := lists[g.Index()];
        QueueIndexInjective(g, h);
        forall x | x in t
          ensures NextOf(r.ls, g.Link(), x) == NextOf(ls, g.Link(), x) && PrevOf(r.ls, g.Link(), x) == PrevOf(ls, g.Link(), x)
        {
          SpliceFrame(c, q, s, task, k, x, g.Link());
        }
        LinkedFrame(ls, r.ls, g.Link(), hs[g.Index()].Next(g.Link()), t);
      }
    }
    InsertedSeparate(lists, h, task, k);
  }

  /** Adding a task no list of its link set holds keeps the lists separate. */
  lemma InsertedSeparate(lists: seq<seq<Slot>>, h: Queue, task: Slot, k: nat)
    requires |lists| == NUM_OF_QUEUES && Separate(lists)
    requires Unqueued(lists, h.Link(), task) && k <= |lists[h.Index()]|
    ensures Separate(InsertedLists(lists, h, task, k))
  {
    var lists' := InsertedLists(lists, h, task, k);
    forall g: Queue, h2: Queue, x: Slot | g != h2 && g.Link() == h2.Link() && x in lists'[g.Index()]
      ensures x !in lists'[h2.Index()]
    {
      QueueIndexInjective(g, h2);
      var s := lists[h.Index()];
      assert x in s[..k] + [task] + s[k..] <==> x in s || x == task;
      if g == h {
        assert lists'[h2.Index()] == lists[h2.Index()];
      } else if h2 == h {
        assert lists'[g.Index()] == lists[g.Index()];
      } else {
        assert lists'[g.Index()] == lists[g.Index()] && lists'[h2.Index()] == lists[h2.Index()];
      }
    }
  }

  /** The lists after removing position k of queue `h`. */
  function RemovedLists(lists: seq<seq<Slot>>, h: Queue, k: nat): (l: seq<seq<Slot>>)
    requires |lists| == NUM_OF_QUEUES && k < |lists[h.Index()]|
    ensures |l| == NUM_OF_QUEUES
  {
    var s := lists[h.Index()];
    lists[h.Index() := s[..k] + s[k + 1..]]
  }

  /** Unlinking the kth element of queue `h` keeps every queue linked and separate. */
  lemma UnlinkKeepsQueues(ls: seq<Links>, hs: seq<Links>, lists: seq<seq<Slot>>, h: Queue, k: nat)
    requires |ls| == NUM_OF_TASKS && |hs| == NUM_OF_QUEUES && |lists| == NUM_OF_QUEUES
    requires QueuesLinked(ls, hs, lists) && Separate(lists) && k < |lists[h.Index()]|
    ensures var s := lists[h.Index()];
      var r := Unlink(Cells(ls, hs[h.Index()]), h.Link(), s[k]);
      && QueuesLinked(r.ls, hs[h.Index() := r.hd], RemovedLists(lists, h, k))
      && Separate(RemovedLists(lists, h, k))
  {
    var s := lists[h.Index()];
    var q := h.Link();
    var c := Cells(ls, hs[h.Index()]);
    var r := Unlink(c, q, s[k]);
    var hs' := hs[h.Index() := r.hd];
    var lists' := RemovedLists(lists, h, k);
    UnlinkRemoves(c, q, s, k);
    forall g: Queue ensures Linked(r.ls, g.Link(), hs'[g.Index()].Next(g.Link()), lists'[g.Index()])
    {
      if g != h {
        var t := lists[g.Index()];
        QueueIndexInjective(g, h);
        forall x | x in t
          ensures NextOf(r.ls, g.Link(), x) == NextOf(ls, g.Link(), x) && PrevOf(r.ls, g.Link(), x) == PrevOf(ls, g.Link(), x)
        {
          UnlinkFrame(c, q, s, k, x, g.Link());
        }
        LinkedFrame(ls, r.ls, g.Link(), hs[g.Index()].Next(g.Link()), t);
      }
    }
    RemovedSeparate(lists, h, k);
  }

  /** Removing an element from one list keeps the lists separate. */
  lemma RemovedSeparate(lists: seq<seq<Slot>>, h: Queue, k: nat)
    requires |lists| == NUM_OF_QUEUES && Separate(lists) && k < |lists[h.Index()]|
    ensures Separate(RemovedLists(lists, h, k))
  {
    var lists' := RemovedLists(lists, h, k);
    var s := lists[h.Index()];
    assert forall x :: x in s[..k] + s[k + 1..] ==> x in s by {
      forall x | x in s[..k] + s[k + 1..] ensures x in s
      {
        if x in s[..k] { assert x in s; } else { assert x in s[k + 1..]; }
      }
    }
    forall g: Queue ensures forall x :: x in lists'[g.Index()] ==> x in lists[g.Index()]
    {
      QueueIndexInjective(g, h);
    }
  }

  /** q_extract_first on a q0 queue keeps every queue linked and separate. */
  lemma ExtractFirstKeepsQueues(ls: seq<Links>, hs: seq<Links>, lists: seq<seq<Slot>>, h: Queue)
    requires |ls| == NUM_OF_TASKS && |hs| == NUM_OF_QUEUES && |lists| == NUM_OF_QUEUES
    requires QueuesLinked(ls, hs, lists) && Separate(lists) && h.Link() == Q0 && lists[h.Index()] != []
    ensures var r := ExtractFirst(Cells(ls, hs[h.Index()]));
      && r.id == lists[h.Index()][0]
      && QueuesLinked(r.cells.ls, hs[h.Index() := r.cells.hd], RemovedLists(lists, h, 0))
      && Separate(RemovedLists(lists, h, 0))
  {
    var s := lists[h.Index()];
    var c := Cells(ls, hs[h.Index()]);
    var r := ExtractFirst(c);
    var hs' := hs[h.Index() := r.cells.hd];
    var lists' := RemovedLists(lists, h, 0);
    ExtractFirstRemovesHead(c, s);
    assert lists'[h.Index()] == s[1..];
    forall g: Queue ensures Linked(r.cells.ls, g.Link(), hs'[g.Index()].Next(g.Link()), lists'[g.Index()])
    {
      if g != h {
        var t := lists[g.Index()];
        QueueIndexInjective(g, h);
        forall x | x in t
          ensures NextOf(r.cells.ls, g.Link(), x) == NextOf(ls, g.Link(), x)
                  && PrevOf(r.cells.ls, g.Link(), x) == PrevOf(ls, g.Link(), x)
        {
          if g.Link() == Q0 {
            assert x != At(s, 1) by { if |s| > 1 { assert s[1] in s; } }
          }
          ExtractFirstFrame(c, s, x, g.Link());
        }
        LinkedFrame(ls, r.cells.ls, g.Link(), hs[g.Index()].Next(g.Link()), t);
      }
    }
    RemovedSeparate(lists, h, 0);
  }

  // ----------------------------------------------------------------------
  // The arena's queue invariant

  /**
   * Every header denotes its list, lists on one link set are separate, slot 0
   * (the null task) carries no links, and a task outside the doubled-periods
   * queue has null q1 links (q1_extract reads them even for such a task).
   */
  ghost predicate QueuesOk(ls: seq<Links>, hs: seq<Links>, lists: seq<seq<Slot>>)
    requires |ls| == NUM_OF_TASKS && |hs| == NUM_OF_QUEUES && |lists| == NUM_OF_QUEUES
  {
    QueuesLinked(ls, hs, lists) && Separate(lists) && ls[0] == NoLinks
    && forall i: Slot :: i !in lists[Doubled.Index()] ==> NextOf(ls, Q1, i) == 0 && PrevOf(ls, Q1, i) == 0
  }

  lemma NoLinksAt(ls: seq<Links>, x: Slot)
    requires |ls| == NUM_OF_TASKS
    requires forall p :: NextOf(ls, p, x) == 0 && PrevOf(ls, p, x) == 0
    ensures ls[x] == NoLinks
  {
    assert NextOf(ls, Q0, x) == 0 && PrevOf(ls, Q0, x) == 0;
    assert NextOf(ls, Q1, x) == 0 && PrevOf(ls, Q1, x) == 0;
    assert NextOf(ls, Q2, x) == 0 && PrevOf(ls, Q2, x) == 0;
  }

  /** Linking an unqueued task into queue `h` at position k keeps the invariant. */
  lemma InsertKeepsQueuesOk(ls: seq<Links>, hs: seq<Links>, lists: seq<seq<Slot>>, h: Queue, task: Slot, k: nat)
    requires |ls| == NUM_OF_TASKS && |hs| == NUM_OF_QUEUES && |lists| == NUM_OF_QUEUES
    requires QueuesOk(ls, hs, lists)
    requires task != 0 && Unqueued(lists, h.Link(), task) && k <= |lists[h.Index()]|
    ensures var s := lists[h.Index()];
      var r := Splice(Cells(ls, hs[h.Index()]), h.Link(), task, Before(s, k), At(s, k));
      QueuesOk(r.ls, hs[h.Index() := r.hd], InsertedLists(lists, h, task, k))
  {
    var s := lists[h.Index()];
    var q := h.Link();
    var c := Cells(ls, hs[h.Index()]);
    var r := Splice(c, q, task, Before(s, k), At(s, k));
    var lists' := InsertedLists(lists, h, task, k);
    InsertKeepsQueues(ls, hs, lists, h, task, k);
    assert Linked(ls, q, c.hd.Next(q), s);
    forall p ensures NextOf(r.ls, p, 0) == 0 && PrevOf(r.ls, p, 0) == 0
    {
      SpliceFrame(c, q, s, task, k, 0, p);
    }
    NoLinksAt(r.ls, 0);
    forall i: Slot | i !in lists'[Doubled.Index()]
      ensures NextOf(r.ls, Q1, i) == 0 && PrevOf(r.ls, Q1, i) == 0
    {
      QueueIndexInjective(h, Doubled);
      if h == Doubled {
        assert i != task && i !in s by { assert s[..k] + [task] + s[k..] == lists'[Doubled.Index()]; }
      }
      SpliceFrame(c, q, s, task, k, i, Q1);
    }
  }

  /** Unlinking the kth element of queue `h` keeps the invariant. */
  lemma UnlinkKeepsQueuesOk(ls: seq<Links>, hs: seq<Links>, lists: seq<seq<Slot>>, h: Queue, k: nat)
    requires |ls| == NUM_OF_TASKS && |hs| == NUM_OF_QUEUES && |lists| == NUM_OF_QUEUES
    requires QueuesOk(ls, hs, lists) && k < |lists[h.Index()]|
    ensures var s := lists[h.Index()];
      var r := Unlink(Cells(ls, hs[h.Index()]), h.Link(), s[k]);
      QueuesOk(r.ls, hs[h.Index() := r.hd], RemovedLists(lists, h, k))
  {
    var s := lists[h.Index()];
    var q := h.Link();
    var c := Cells(ls, hs[h.Index()]);
    var r := Unlink(c, q, s[k]);
    var lists' := RemovedLists(lists, h, k);
    UnlinkKeepsQueues(ls, hs, lists, h, k);
    assert Linked(ls, q, c.hd.Next(q), s);
    UnlinkRemoves(c, q, s, k);
    forall p ensures NextOf(r.ls, p, 0) == 0 && PrevOf(r.ls, p, 0) == 0
    {
      UnlinkFrame(c, q, s, k, 0, p);
    }
    NoLinksAt(r.ls, 0);
    forall i: Slot | i !in lists'[Doubled.Index()]
      ensures NextOf(r.ls, Q1, i) == 0 && PrevOf(r.ls, Q1, i) == 0
    {
      QueueIndexInjective(h, Doubled);
      if h == Doubled {
        RemovedKeepsOthers(s, k, i);
      }
      if !(h == Doubled && i == s[k]) {
        UnlinkFrame(c, q, s, k, i, Q1);
      }
    }
  }

  /** Removing position k keeps every other element. */
  lemma RemovedKeepsOthers(s: seq<Slot>, k: nat, x: Slot)
    requires k < |s|
    ensures x in s && x != s[k] ==> x in s[..k] + s[k + 1..]
  {
    if x in s && x != s[k] {
      var j :| 0 <= j < |s| && s[j] == x;
      if j < k {
        assert (s[..k] + s[k + 1..])[j] == x;
      } else {
        assert (s[..k] + s[k + 1..])[j - 1] == x;
      }
    }
  }

  /** q_extract_first on a non-empty q0 queue keeps the invariant. */
  lemma ExtractFirstKeepsQueuesOk(ls: seq<Links>, hs: seq<Links>, lists: seq<seq<Slot>>, h: Queue)
    requires |ls| == NUM_OF_TASKS && |hs| == NUM_OF_QUEUES && |lists| == NUM_OF_QUEUES
    requires QueuesOk(ls, hs, lists) && h.Link() == Q0 && lists[h.Index()] != []
    ensures var r := ExtractFirst(Cells(ls, hs[h.Index()]));
      && r.id == lists[h.Index()][0]
      && QueuesOk(r.cells.ls, hs[h.Index() := r.cells.hd], RemovedLists(lists, h, 0))
  {
    var s := lists[h.Index()];
    var c := Cells(ls, hs[h.Index()]);
    var r := ExtractFirst(c);
    ExtractFirstKeepsQueues(ls, hs, lists, h);
    assert Linked(ls, Q0, c.hd.Next(Q0), s);
    forall p ensures NextOf(r.cells.ls, p, 0) == 0 && PrevOf(r.cells.ls, p, 0) == 0
    {
      if p != Q0 || At(s, 1) != 0 {
        ExtractFirstFrame(c, s, 0, p);
      }
    }
    NoLinksAt(r.cells.ls, 0);
    QueueIndexInjective(h, Doubled);
    forall i: Slot ensures NextOf(r.cells.ls, Q1, i) == NextOf(ls, Q1, i) && PrevOf(r.cells.ls, Q1, i) == PrevOf(ls, Q1, i)
    {
      ExtractFirstFrame(c, s, i, Q1);
    }
  }

  /** q1_extract of a task outside the doubled-periods queue is a no-op under the invariant. */
  lemma UnlinkQ1KeepsQueuesOk(ls: seq<Links>, hs: seq<Links>, lists: seq<seq<Slot>>, task: Slot)
    requires |ls| == NUM_OF_TASKS && |hs| == NUM_OF_QUEUES && |lists| == NUM_OF_QUEUES
    requires QueuesOk(ls, hs, lists)
    ensures var s := lists[Doubled.Index()];
      var c := Cells(ls, hs[Doubled.Index()]);
      && (task !in s ==> UnlinkQ1(c, task) == c)
      && (forall k :: 0 <= k < |s| && s[k] == task ==>
            UnlinkQ1(c, task) == Unlink(c, Q1, task)
            && QueuesOk(UnlinkQ1(c, task).ls, hs[Doubled.Index() := UnlinkQ1(c, task).hd], RemovedLists(lists, Doubled, k)))
  {
    var s := lists[Doubled.Index()];
    var c := Cells(ls, hs[Doubled.Index()]);
    assert Linked(ls, Q1, c.hd.Next(Q1), s);
    if task !in s {
      UnlinkQ1NonMember(c, s, task);
    }
    forall k | 0 <= k < |s| && s[k] == task
      ensures UnlinkQ1(c, task) == Unlink(c, Q1, task)
      ensures QueuesOk(UnlinkQ1(c, task).ls, hs[Doubled.Index() := UnlinkQ1(c, task).hd], RemovedLists(lists, Doubled, k))
    {
      UnlinkQ1Member(c, s, k);
      UnlinkKeepsQueuesOk(ls, hs, lists, Doubled, k);
    }
  }

  // ----------------------------------------------------------------------
  // Read-only queries on a header

  /** The number the queries take for a link set: 0, 1 or 2. */
  function Number(q: LinkSet): (n: u8)
    ensures n <= 2
  {
    match q
    case Q0 => 0
    case Q1 => 1
    case Q2 => 2
  }

  /** q_empty: whether the header's link of set `queue` is null; false for a queue number above 2. */
  function QEmpty(queue: u8, hd: Links): (r: bool)
    ensures queue > 2 ==> !r
  {
    if queue == 0 then hd.Next(Q0) == 0
    else if queue == 1 then hd.Next(Q1) == 0
    else if queue == 2 then hd.Next(Q2) == 0
    else false
  }

  /** q_first_id: the header's link of set `queue`; 0 for a queue number above 2. */
  function QFirstId(queue: u8, hd: Links): (id: Slot)
    ensures queue > 2 ==> id == 0
  {
    if queue == 0 then hd.Next(Q0)
    else if queue == 1 then hd.Next(Q1)
    else if queue == 2 then hd.Next(Q2)
    else 0
  }

  /**
   * q_second_id: the next link of the task the header points to, read
   * through slot 0 when the queue is empty; 0 for a queue number above 2.
   */
  function QSecondId(queue: u8, hd: Links, ls: seq<Links>): (id: Slot)
    requires |ls| == NUM_OF_TASKS
    ensures queue > 2 ==> id == 0
  {
    if queue == 0 then NextOf(ls, Q0, hd.Next(Q0))
    else if queue == 1 then NextOf(ls, Q1, hd.Next(Q1))
    else if queue == 2 then NextOf(ls, Q2, hd.Next(Q2))
    else 0
  }

  /**
   * On a well-linked queue whose slot 0 carries no link, the queries read the
   * list: empty exactly when it has no element, its first element and its
   * second element, 0 standing for a missing one.
   */
  lemma QueriesReadList(ls: seq<Links>, q: LinkSet, hd: Links, s: seq<Slot>)
    requires |ls| == NUM_OF_TASKS && Linked(ls, q, hd.Next(q), s) && NextOf(ls, q, 0) == 0
    ensures QEmpty(Number(q), hd) <==> s == []
    ensures QFirstId(Number(q), hd) == At(s, 0)
    ensures QSecondId(Number(q), hd, ls) == At(s, 1)
  {
  }
}

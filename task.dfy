// The task store of task.h / task.c: the task record, its states, the aliases
// laid over its spare fields, and the arena of NUM_OF_TASKS records with the
// running task id and the overrun flag.

module Task {
  import opened CTypes
  import opened TestReport

  /** `NUM_OF_TASKS` (globals.h:45): slots 0..7; slot 0 is a zero-filled sentinel. */
  const NUM_OF_TASKS: nat := 8

  /** A slot index. Task ids and queue links only ever hold one; 0 is the null link. */
  type Slot = i: int | 0 <= i < 8

  /** `task_state_type` (task.h:64-74), in declaration order. */
  datatype TaskState = Sleep | Waiting | Removed | Idle | Skipped | Preempted | Ready | Run
  {
    /** The enumerator's value in C. */
    function Code(): (n: nat)
      ensures n < 8
      ensures this == Sleep <==> n == 0
    {
      match this
      case Sleep => 0
      case Waiting => 1
      case Removed => 2
      case Idle => 3
      case Skipped => 4
      case Preempted => 5
      case Ready => 6
      case Run => 7
    }
  }

  /** The enumerators are numbered in the order SLEEP, WAITING, REMOVED, IDLE, SKIPPED, PREMPT, READY, RUN. */
  lemma StateOrder()
    ensures Sleep.Code() < Waiting.Code() < Removed.Code() < Idle.Code()
    ensures Idle.Code() < Skipped.Code() < Preempted.Code() < Ready.Code() < Run.Code()
    ensures forall s: TaskState, t: TaskState :: s.Code() == t.Code() ==> s == t
  {
  }

  /** The three independent link sets q0, q1 and q2. */
  datatype LinkSet = Q0 | Q1 | Q2

  /** The six link fields of a record (task.h:105-110): a prev/next pair per link set. */
  datatype Links = Links(q0Prev: Slot, q0Next: Slot, q1Prev: Slot, q1Next: Slot, q2Prev: Slot, q2Next: Slot)
  {
    function Next(q: LinkSet): Slot
    {
      match q
      case Q0 => q0Next
      case Q1 => q1Next
      case Q2 => q2Next
    }

    function Prev(q: LinkSet): Slot
    {
      match q
      case Q0 => q0Prev
      case Q1 => q1Prev
      case Q2 => q2Prev
    }

    function WithNext(q: LinkSet, v: Slot): (l: Links)
      ensures l.Next(q) == v && l.Prev(q) == Prev(q)
      ensures forall p :: p != q ==> l.Next(p) == Next(p) && l.Prev(p) == Prev(p)
    {
      match q
      case Q0 => this.(q0Next := v)
      case Q1 => this.(q1Next := v)
      case Q2 => this.(q2Next := v)
    }

    function WithPrev(q: LinkSet, v: Slot): (l: Links)
      ensures l.Prev(q) == v && l.Next(q) == Next(q)
      ensures forall p :: p != q ==> l.Next(p) == Next(p) && l.Prev(p) == Prev(p)
    {
      match q
      case Q0 => this.(q0Prev := v)
      case Q1 => this.(q1Prev := v)
      case Q2 => this.(q2Prev := v)
    }
  }

  const NoLinks: Links := Links(0, 0, 0, 0, 0, 0)

  /** Each link set has its own pair of fields: writing one never changes another. */
  lemma LinkSetsIndependent(l: Links, q: LinkSet, p: LinkSet, v: Slot)
    requires p != q
    ensures l.WithNext(q, v).Next(p) == l.Next(p) && l.WithNext(q, v).Prev(p) == l.Prev(p)
    ensures l.WithPrev(q, v).Next(p) == l.Next(p) && l.WithPrev(q, v).Prev(p) == l.Prev(p)
  {
  }

  /** `struct stored_task_data_type` (task.h:45-58): the constant part of a task template. */
  datatype StoredTask = StoredTask(
    id: u8, release: u32, duration: u32, relDline: u32, period: u32,
    priority: u8, preempt: u8, spare1: u32, spare2: u32, spare3: u32, spare4: u32)

  /**
   * `struct task_type` (task.h:78-119) without its six link fields, which the
   * model keeps in a column of their own (see TaskStore.links).
   */
  datatype TaskRecord = TaskRecord(
    // constants
    id: u8, release: u32, duration: u32, relDline: u32, period: u32,
    priority: u8, preempt: u8, spare1: u32, spare2: u32, spare3: u32, spare4: u32,
    // calculated
    timeLeft: u32, timeTaken: u32, absDline: u32, laxity: u32, cDuration: u32,
    taskUtil: u16, preCount: u8, ePriority: u8, periodMultiplier: u8, state: TaskState,
    // report parameters
    perDoubles: u32, dlinesMissed: u32, dlinesMet: u32, netValue: u32, value: u32)
  {
    // The alias macros of task.h:33-39, as views over the spare fields.

    /** MUF_CRITICAL: spare_1. */
    function MufCritical(): u32 { spare1 }
    /** ELASTIC_COEFFICIENT: spare_1. */
    function ElasticCoefficient(): u32 { spare1 }
    /** SKIP_GAP: spare_1. */
    function SkipGap(): u32 { spare1 }
    /** MUF_URGENCY: spare_4. */
    function MufUrgency(): u32 { spare4 }
    /** PERIOD_FLEXIBLE: spare_2. */
    function PeriodFlexible(): u32 { spare2 }
    /** NOT_SKIPPED: spare_2. */
    function NotSkipped(): u32 { spare2 }
    /** TOTAL_SKIPS: spare_2. */
    function TotalSkips(): u32 { spare2 }

    /** An assignment through NOT_SKIPPED or TOTAL_SKIPS: both write spare_2. */
    function WithSpare2(v: u32): TaskRecord { this.(spare2 := v) }
    /** An assignment through MUF_URGENCY: writes spare_4. */
    function WithMufUrgency(v: u32): TaskRecord { this.(spare4 := v) }

    /** The constant fields that a task template supplies. */
    function Constants(): StoredTask
    {
      StoredTask(id, release, duration, relDline, period, priority, preempt, spare1, spare2, spare3, spare4)
    }
  }

  /** The zero-initialised record of static storage (state 0 is TSK_SLEEP). */
  const ZeroRecord: TaskRecord := TaskRecord(
    0, 0, 0, 0, 0, 0, 0, 0, 0, 0, 0,
    0, 0, 0, 0, 0, 0, 0, 0, 0, Sleep,
    0, 0, 0, 0, 0)

  /** MUF_CRITICAL, SKIP_GAP and ELASTIC_COEFFICIENT read the same field. */
  lemma Spare1Aliases(r: TaskRecord)
    ensures r.MufCritical() == r.SkipGap() == r.ElasticCoefficient() == r.spare1
  {
  }

  /**
   * PERIOD_FLEXIBLE, NOT_SKIPPED and TOTAL_SKIPS are one field: a write through
   * any of them is seen by the other two, and nothing else changes.
   */
  lemma Spare2Aliases(r: TaskRecord, v: u32)
    ensures r.PeriodFlexible() == r.NotSkipped() == r.TotalSkips()
    ensures var w := r.WithSpare2(v); w.PeriodFlexible() == v && w.NotSkipped() == v && w.TotalSkips() == v
    ensures r.WithSpare2(v).(spare2 := r.spare2) == r
  {
  }

  /** MUF_URGENCY is spare_4 and no other alias shares it. */
  lemma Spare4Alias(r: TaskRecord, v: u32)
    ensures r.WithMufUrgency(v).MufUrgency() == v
    ensures r.WithMufUrgency(v).spare1 == r.spare1 && r.WithMufUrgency(v).spare2 == r.spare2
  {
  }

  /** What reset_task_parameters leaves: every field zero and state SLEEP, except `e_priority`. */
  function Purged(r: TaskRecord): (p: TaskRecord)
    ensures p.ePriority == r.ePriority && p.state == Sleep
    ensures p.(ePriority := 0) == ZeroRecord
  {
    ZeroRecord.(ePriority := r.ePriority)
  }

  /** The record after TSK_add_task copied a template's 11 constant fields into a purged record. */
  function Loaded(r: TaskRecord, t: StoredTask): (l: TaskRecord)
    ensures l.Constants() == t
  {
    Purged(r).(id := t.id, release := t.release, duration := t.duration, relDline := t.relDline,
               period := t.period, priority := t.priority, preempt := t.preempt,
               spare1 := t.spare1, spare2 := t.spare2, spare3 := t.spare3, spare4 := t.spare4)
  }

  /** Loading touches only the constant fields of the purged record. */
  lemma LoadedKeepsPurgedRest(r: TaskRecord, t: StoredTask)
    ensures Loaded(r, t).(id := 0, release := 0, duration := 0, relDline := 0, period := 0,
                          priority := 0, preempt := 0, spare1 := 0, spare2 := 0, spare3 := 0, spare4 := 0)
            == Purged(r)
  {
  }

  /** `time_left > (abs_dline - timeval)`, the subtraction done in U32. */
  predicate RunningLate(r: TaskRecord, now: u32)
  {
    r.timeLeft > Wrap32(r.absDline as int - now as int)
  }

  /** The three-way word for RUN, READY and PREMPT tasks. */
  function DeadlineWord(r: TaskRecord, now: u32, late: string, over: string, fine: string): string
  {
    if r.absDline == now then "<-DDDD->"
    else if RunningLate(r, now) then late
    else if r.absDline < now then over
    else fine
  }

  /** The word build_task_report_word writes for one task. */
  function ReportWord(r: TaskRecord, now: u32): (w: string)
    ensures |w| == 8
  {
    match r.state
    case Run => DeadlineWord(r, now, "  LATE  ", "  OVER  ", "  ++++  ")
    case Ready => DeadlineWord(r, now, "  RL..  ", "  RO..  ", "  r...  ")
    case Preempted => DeadlineWord(r, now, "  PL..  ", "  PO..  ", "  p...  ")
    case Waiting => "  wait  "
    case Idle => if r.absDline == now then "<-DDDD->" else "  i...  "
    case Skipped => if r.absDline == now then "<-DDDD->" else "  sk..  "
    case Removed => "  rm..  "
    case Sleep => "  s...  "
  }

  /** build_task_report_word sets `task_error` on these words only. */
  predicate ReportsOverrun(r: TaskRecord, now: u32)
  {
    r.state in {Run, Ready, Preempted} && r.absDline != now && !RunningLate(r, now) && r.absDline < now
  }

  /** The report's words, written out slot by slot as the report is built. */
  lemma WordsUnrolled(ts: seq<TaskRecord>, now: u32, words: seq<string>)
    requires |ts| == NUM_OF_TASKS
    requires words == [ReportWord(ts[1], now), ReportWord(ts[2], now), ReportWord(ts[3], now), ReportWord(ts[4], now),
                       ReportWord(ts[5], now), ReportWord(ts[6], now), ReportWord(ts[7], now)]
    ensures forall i :: 0 <= i < NUM_OF_TASKS - 1 ==> words[i] == ReportWord(ts[i + 1], now)
  {
  }

  /** Some task 1..7 overran, written out slot by slot as the report is built. */
  lemma OverrunUnrolled(ts: seq<TaskRecord>, now: u32)
    requires |ts| == NUM_OF_TASKS
    ensures (exists i :: 1 <= i < NUM_OF_TASKS && ReportsOverrun(ts[i], now)) <==>
      ReportsOverrun(ts[1], now) || ReportsOverrun(ts[2], now) || ReportsOverrun(ts[3], now) || ReportsOverrun(ts[4], now)
      || ReportsOverrun(ts[5], now) || ReportsOverrun(ts[6], now) || ReportsOverrun(ts[7], now)
  {
  }

  /** A task that is due this tick is shown as "<-DDDD->" in every state that has a deadline. */
  lemma ReportWordAtDeadline(r: TaskRecord, now: u32)
    requires r.state in {Run, Ready, Preempted, Idle, Skipped} && r.absDline == now
    ensures ReportWord(r, now) == "<-DDDD->" && !ReportsOverrun(r, now)
  {
  }

  /** The overrun flag is raised exactly with the OVER, RO and PO words. */
  lemma ReportOverrunWords(r: TaskRecord, now: u32)
    ensures ReportsOverrun(r, now) <==> ReportWord(r, now) in {"  OVER  ", "  RO..  ", "  PO..  "}
    ensures ReportsOverrun(r, now) ==> r.absDline < now
  {
  }

  /** WAITING, REMOVED and SLEEP tasks get fixed words, whatever the time. */
  lemma ReportFixedWords(r: TaskRecord, now: u32)
    ensures r.state == Waiting ==> ReportWord(r, now) == "  wait  "
    ensures r.state == Removed ==> ReportWord(r, now) == "  rm..  "
    ensures r.state == Sleep ==> ReportWord(r, now) == "  s...  "
  {
  }

  /** TSK_task_completed's bookkeeping on the task record. */
  function Completed(r: TaskRecord, now: u32): (c: TaskRecord)
    ensures r.absDline >= now ==>
              c.dlinesMet == Wrap32(r.dlinesMet as int + 1) && c.dlinesMissed == r.dlinesMissed
              && c.value == Wrap32(r.value as int + r.netValue)
    ensures r.absDline < now ==>
              c.dlinesMissed == Wrap32(r.dlinesMissed as int + 1) && c.dlinesMet == r.dlinesMet
              && c.value == r.value
    ensures c.cDuration == if r.timeTaken > r.cDuration then r.timeTaken else r.cDuration
    ensures c.timeTaken == 0 && c.netValue == 0
    ensures c.(dlinesMet := 0, dlinesMissed := 0, value := 0, cDuration := 0, timeTaken := 0, netValue := 0)
            == r.(dlinesMet := 0, dlinesMissed := 0, value := 0, cDuration := 0, timeTaken := 0, netValue := 0)
  {
    var counted :=
      if r.absDline >= now then r.(dlinesMet := Wrap32(r.dlinesMet as int + 1), value := Wrap32(r.value as int + r.netValue))
      else r.(dlinesMissed := Wrap32(r.dlinesMissed as int + 1));
    var measured := if counted.timeTaken > counted.cDuration then counted.(cDuration := counted.timeTaken) else counted;
    measured.(timeTaken := 0, netValue := 0)
  }

  /** One tick of work on a record: a unit of time consumed and of value earned. */
  function Worked(r: TaskRecord): (w: TaskRecord)
    requires r.timeLeft > 0
    ensures w.timeLeft + 1 == r.timeLeft
    ensures w.netValue == Wrap32(r.netValue as int + 1) && w.timeTaken == Wrap32(r.timeTaken as int + 1)
    ensures w.(timeLeft := 0, netValue := 0, timeTaken := 0) == r.(timeLeft := 0, netValue := 0, timeTaken := 0)
  {
    r.(timeLeft := r.timeLeft - 1, netValue := Wrap32(r.netValue as int + 1), timeTaken := Wrap32(r.timeTaken as int + 1))
  }

  /**
   * The task object: `task_array` reached through `tasks[]` (task.c:44-48),
   * `running_task_id` (0: nothing runs) and `task_error` (the overrun flag),
   * plus the report counter table that its functions update. The link fields
   * of slot i are `links[i]`; everything else of the record is `tasks[i]`.
   */
  class TaskStore {
    const tasks: array<TaskRecord>
    const links: array<Links>
    var running: Slot
    var taskError: bool
    const report: Report

    ghost predicate Valid()
      reads this, report
    {
      tasks.Length == NUM_OF_TASKS && links.Length == NUM_OF_TASKS && report.Valid()
    }

    /** TSK_init: every slot a zero record, nothing running, no overrun pending. */
    constructor (report: Report)
      requires report.Valid()
      ensures Valid() && fresh(tasks) && fresh(links) && this.report == report
      ensures running == 0 && !taskError
      ensures forall i :: 0 <= i < NUM_OF_TASKS ==> tasks[i] == ZeroRecord && links[i] == NoLinks
    {
      tasks := new TaskRecord[NUM_OF_TASKS](_ => ZeroRecord);
      links := new Links[NUM_OF_TASKS](_ => NoLinks);
      running := 0;
      taskError := false;
      this.report := report;
    }

    /** TSK_soft_reset: the computed-parameter reset is empty, so only the running id clears. */
    method SoftReset()
      modifies this`running
      ensures running == 0
    {
      running := 0;
    }

    /** reset_task_parameters on one slot: the record purged and its links cleared. */
    method ResetTaskParameters(slot: Slot)
      requires Valid()
      modifies tasks, links
      ensures tasks[slot] == Purged(old(tasks[slot])) && links[slot] == NoLinks
      ensures forall i :: 0 <= i < NUM_OF_TASKS && i != slot ==> tasks[i] == old(tasks[i]) && links[i] == old(links[i])
    {
      tasks[slot] := Purged(tasks[slot]);
      links[slot] := NoLinks;
    }

    /**
     * TSK_add_task: with an in-range template id the slot is purged and the 11
     * constant fields copied from the template; otherwise nothing changes.
     * `templates` is `stored_task_data`; its length is MAX_TEST_TASKS.
     */
    method AddTask(templateId: u8, slot: Slot, templates: seq<StoredTask>)
      requires Valid()
      modifies tasks, links
      ensures templateId < |templates| ==> tasks[slot] == Loaded(old(tasks[slot]), templates[templateId]) && links[slot] == NoLinks
      ensures templateId >= |templates| ==> tasks[slot] == old(tasks[slot]) && links[slot] == old(links[slot])
      ensures forall i :: 0 <= i < NUM_OF_TASKS && i != slot ==> tasks[i] == old(tasks[i]) && links[i] == old(links[i])
    {
      if templateId < |templates| {
        ResetTaskParameters(slot);
        var t := templates[templateId];
        tasks[slot] := tasks[slot].(id := t.id, release := t.release, duration := t.duration,
                                    relDline := t.relDline, period := t.period, priority := t.priority,
                                    preempt := t.preempt, spare1 := t.spare1, spare2 := t.spare2,
                                    spare3 := t.spare3, spare4 := t.spare4);
      }
    }

    /** build_task_report_word: the word for one task; raises the overrun flag on OVER/RO/PO. */
    method BuildTaskReportWord(now: u32, taskNum: Slot) returns (word: string)
      requires Valid()
      modifies this`taskError
      ensures Valid()
      ensures word == ReportWord(tasks[taskNum], now)
      ensures taskError == (old(taskError) || ReportsOverrun(tasks[taskNum], now))
    {
      var r := tasks[taskNum];
      match r.state {
        case Run =>
          if r.absDline == now { word := "<-DDDD->"; }
          else if RunningLate(r, now) { word := "  LATE  "; }
          else if r.absDline < now { word := "  OVER  "; taskError := true; }
          else { word := "  ++++  "; }
        case Ready =>
          if r.absDline == now { word := "<-DDDD->"; }
          else if RunningLate(r, now) { word := "  RL..  "; }
          else if r.absDline < now { word := "  RO..  "; taskError := true; }
          else { word := "  r...  "; }
        case Preempted =>
          if r.absDline == now { word := "<-DDDD->"; }
          else if RunningLate(r, now) { word := "  PL..  "; }
          else if r.absDline < now { word := "  PO..  "; taskError := true; }
          else { word := "  p...  "; }
        case Waiting => word := "  wait  ";
        case Idle =>
          if r.absDline == now { word := "<-DDDD->"; } else { word := "  i...  "; }
        case Skipped =>
          if r.absDline == now { word := "<-DDDD->"; } else { word := "  sk..  "; }
        case Removed => word := "  rm..  ";
        case Sleep => word := "  s...  ";
      }
    }

    /**
     * send_report: the words of tasks 1..7, and whether "OVERRUN" is reported,
     * which clears the flag.
     */
    method SendReport(now: u32) returns (words: seq<string>, overrun: bool)
      requires Valid()
      modifies this`taskError
      ensures |words| == NUM_OF_TASKS - 1
      ensures forall i :: 0 <= i < NUM_OF_TASKS - 1 ==> words[i] == ReportWord(tasks[i + 1], now)
      ensures overrun == (old(taskError) || exists i :: 1 <= i < NUM_OF_TASKS && ReportsOverrun(tasks[i], now))
      ensures !taskError
    {
      var w1 := BuildTaskReportWord(now, 1);
      var w2 := BuildTaskReportWord(now, 2);
      var w3 := BuildTaskReportWord(now, 3);
      var w4 := BuildTaskReportWord(now, 4);
      var w5 := BuildTaskReportWord(now, 5);
      var w6 := BuildTaskReportWord(now, 6);
      var w7 := BuildTaskReportWord(now, 7);
      words := [w1, w2, w3, w4, w5, w6, w7];
      overrun := taskError;
      if taskError {
        taskError := false;
      }
      OverrunUnrolled(tasks[..], now);
      WordsUnrolled(tasks[..], now, words);
    }

    /**
     * TSK_run_task_cycle: the running task (if any) does one unit of work,
     * the test duration counter goes up, and the tick is reported.
     */
    method RunTaskCycle(now: u32) returns (words: seq<string>, overrun: bool)
      requires Valid()
      modifies tasks, this`taskError, report.values
      ensures Valid()
      ensures old(running) > 0 && old(tasks[running].timeLeft) > 0 ==>
                tasks[running] == Worked(old(tasks[running]))
      ensures old(running) == 0 || old(tasks[running].timeLeft) == 0 ==> tasks[running] == old(tasks[running])
      ensures forall i :: 0 <= i < NUM_OF_TASKS && i != running ==> tasks[i] == old(tasks[i])
      ensures report.values[Duration.Index()] == Wrap32(old(report.values[Duration.Index()]) as int + 1)
      ensures forall c: Counter :: c != Duration ==> report.values[c.Index()] == old(report.values[c.Index()])
      ensures |words| == NUM_OF_TASKS - 1 && !taskError
      ensures forall i :: 0 <= i < NUM_OF_TASKS - 1 ==> words[i] == ReportWord(tasks[i + 1], now)
      ensures overrun == (old(taskError) || exists i :: 1 <= i < NUM_OF_TASKS && ReportsOverrun(tasks[i], now))
    {
      if running > 0 {
        if tasks[running].timeLeft > 0 {
          tasks[running] := Worked(tasks[running]);
        }
      }
      report.Incr(Duration);
      words, overrun := SendReport(now);
    }

    /**
     * TSK_task_completed: books the finished job of `task` as a met or missed
     * deadline, in the record and in the report table, then resets its
     * per-job counters.
     */
    method TaskCompleted(task: Slot, now: u32)
      requires Valid()
      modifies tasks, report.values
      ensures Valid()
      ensures tasks[task] == Completed(old(tasks[task]), now)
      ensures forall i :: 0 <= i < NUM_OF_TASKS && i != task ==> tasks[i] == old(tasks[i])
      ensures old(tasks[task].absDline) >= now ==>
                report.values[DeadlineMet.Index()] == Wrap32(old(report.values[DeadlineMet.Index()]) as int + 1)
                && report.values[Value.Index()] == Wrap32(old(report.values[Value.Index()]) as int + old(tasks[task].netValue))
                && report.values[DeadlineMissed.Index()] == old(report.values[DeadlineMissed.Index()])
      ensures old(tasks[task].absDline) < now ==>
                report.values[DeadlineMissed.Index()] == Wrap32(old(report.values[DeadlineMissed.Index()]) as int + 1)
                && report.values[Value.Index()] == old(report.values[Value.Index()])
                && report.values[DeadlineMet.Index()] == old(report.values[DeadlineMet.Index()])
      ensures forall c: Counter :: c !in {DeadlineMet, DeadlineMissed, Value} ==>
                report.values[c.Index()] == old(report.values[c.Index()])
    {
      var r := tasks[task];
      if r.absDline >= now {
        r := r.(dlinesMet := Wrap32(r.dlinesMet as int + 1));
        report.Incr(DeadlineMet);
        r := r.(value := Wrap32(r.value as int + r.netValue));
        report.Add(Value, r.netValue);
      } else {
        r := r.(dlinesMissed := Wrap32(r.dlinesMissed as int + 1));
        report.Incr(DeadlineMissed);
      }
      if r.timeTaken > r.cDuration {
        r := r.(cDuration := r.timeTaken);
      }
      r := r.(timeTaken := 0, netValue := 0);
      tasks[task] := r;
    }
  }
}

# Scheduler Simulator core, modelled in Dafny

This project models the engine of a real-time scheduling simulator written in C.
The simulator runs at most seven tasks in slots 1..7 of an arena of eight task
records. Slot 0 is a zero sentinel that the queue code still reads and writes.
On every tick the running task does one unit of work. Then `SCH_start`:

- recalculates laxities and, for the MUF family, urgencies;
- moves tasks between the waiting, idle, ready, skipped, removed and
  doubled-periods queues;
- hands the ready queue to one of the scheduling algorithms: RM, DRM, IRM, the
  MUF family, EDF, SPT, the LLF family, EDF with skips (EDF-RTO), or the
  overload-adapting ADAP-1 to ADAP-7.

Seven queue headers sit over three independent sets of intrusive links (q0, q1
and q2) stored in the task records.

The model has these modules:

- **CTypes** (ctypes.dfy): the C integer widths U8, U16 and U32, with wrap-around
  written out.
- **Task** (task.dfy): the task record of task.h with its spare-field aliases,
  and the task object of task.c as the class `TaskStore`. The class holds the
  `tasks[]` arena, the link column, `running_task_id` and the `task_error`
  flag.
- **TestReport** (test_report.dfy): the report counter table of test.c, as a
  class over an array.
- **Queues** (queues.dfy): the intrusive queue engine on values. It covers the
  link sets, the list a header reaches (`Linked`), ordered insertion, head
  extraction, unlinking and the O(1) queries, with the per-algorithm insertion
  orders.
- **Metrics** (metrics.dfy): laxity, MUF urgency, the enhanced priority word,
  task and task-set utilisation, period doubling and halving, and candidate
  selection.
- **Scheduler model on values**:
  - **SchedState** (sched_state.dfy) holds the scheduler state as a `Snapshot`
    and defines the engine invariant `Consistent`.
  - **SchedOps** (sched_ops.dfy) holds queue and record updates on a snapshot.
  - **SchedSteps** (sched_steps.dfy) holds the `process_*` stages and `SCH_add_task`.
  - **SchedPolicy** (sched_policy.dfy) holds preempt, dispatch, skip and the
    `schedule_*` policies.
  - **SchedAdapt** (sched_adapt.dfy) holds ADAP-1..7.
  - **SchedTick** (sched_tick.dfy) holds `SCH_start` and one pass of the
    simulation loop.

  Each C operation is a function from snapshot to snapshot. A lemma proves
  that it keeps `Consistent`.
- **SchedObject** (scheduler.dfy): the scheduler object, as the class
  `Scheduler` over a `TaskStore` and the seven header records, with an
  imperative method per C function. Each method rewrites links, records and
  `running_task_id` in place. It is proved to leave exactly the state its
  snapshot function describes (`Snap() == F(old(Snap()))`). Loops carry their
  invariants, and the ADAP-1/3/5 loops carry a termination measure.
- **Side cores**:

  | module | file | models |
  |---|---|---|
  | Utils | utils.dfy | `UTL_divide`, `UTL_string_copy` |
  | Decimal | decimal.dfy | decimal digit strings and their values |
  | Term | term.dfy | `is_number`, `get_numeric_input`, `set_up_loop_run` |
  | MessagesOut | messages_out.dfy | the message filter and its toggles, `dec2str`, `build_dec*`, `decode_seconds` |
  | ListClients | list_clients.dfy | the file-name and line helpers of list_clients.c |

The engine invariant `Consistent` is kept by every operation. It states:

- every header's list is linked symmetrically, without cycles, with distinct
  members and never slot 0;
- the queues on one link set are disjoint;
- a task's state matches its q0 queue;
- exactly the running task is RUN;
- SKIPPED appears only under EDF-RTO;
- under ADAP-5/6 the lst queue mirrors the ready queue;
- the doubled-periods queue holds the doubled tasks.

## Model

| member | source | states |
|---|---|---|
| CTypes.Wrap8 | globals.h:54-57 | U8 arithmetic: the value modulo 2^8, so a value already within 0..255 is kept as it is |
| CTypes.Wrap16 | globals.h:54-57 | U16 arithmetic: the value modulo 2^16, so a value already within 0..65535 is kept as it is |
| CTypes.Wrap32 | globals.h:54-57 | U32 arithmetic: the value modulo 2^32, so a value already within 0..2^32-1 is kept as it is |
| CTypes.Shr | scheduler.c:3012-3015 | a right shift never grows the value and a shift by 0 keeps it |
| CTypes.Shl | scheduler.c:768-774 | a left shift multiplies by 2^n |
| Task.StateOrder | task.h:64-74 | the task states are ordered SLEEP < WAITING < REMOVED < IDLE < SKIPPED < PREMPT < READY < RUN, and the codes are distinct |
| Task.LinkSetsIndependent | task.h:105-110 | writing a q0, q1 or q2 link leaves the other two link sets' links unchanged |
| Task.Spare1Aliases | task.h:33-37 | MUF_CRITICAL, SKIP_GAP and ELASTIC_COEFFICIENT read the same field, spare_1 |
| Task.Spare2Aliases | task.h:36-39 | PERIOD_FLEXIBLE, NOT_SKIPPED and TOTAL_SKIPS read spare_2, so a write through one is seen through all three, and nothing else changes |
| Task.Spare4Alias | task.h:34 | MUF_URGENCY is spare_4; writing it leaves spare_1 and spare_2 alone |
| Task.Purged | task.c:900-936 | reset_task_parameters zeroes every field and sets SLEEP but keeps e_priority |
| Task.Loaded | task.c:267-299 | the loaded record holds exactly the template's 11 constant fields |
| Task.LoadedKeepsPurgedRest | task.c:267-299 | apart from the 11 copied fields, the loaded record is the purged record |
| Task.ReportWord | task.c:768-891 | every report word is 8 characters wide |
| Task.ReportWordAtDeadline | task.c:768-891 | a RUN/READY/PREMPT/IDLE/SKIPPED task whose deadline is now reports "<-DDDD->" and no overrun |
| Task.ReportOverrunWords | task.c:768-891 | an overrun is reported iff the word is OVER, RO.. or PO.., and only for a deadline already passed |
| Task.ReportFixedWords | task.c:768-891 | WAITING, REMOVED and SLEEP get their fixed codes |
| Task.Completed | task.c:650-688 | a job finished by its deadline books dlines_met + 1 and adds net_value to value; a late one books dlines_missed + 1 and keeps value; c_duration becomes the larger of c_duration and time_taken; time_taken and net_value are cleared; nothing else changes |
| Task.Worked | task.c:355-363 | one unit of work: time_left - 1, net_value + 1, time_taken + 1 (U32), nothing else |
| Task.TaskStore.constructor | task.c:213-229 | TSK_init: no task runs, no error, every slot holds a zero record with null links |
| Task.TaskStore.SoftReset | task.c:250-257 | TSK_soft_reset clears running_task_id |
| Task.TaskStore.ResetTaskParameters | task.c:900-936 | the slot becomes its purged record with null links; no other slot changes |
| Task.TaskStore.AddTask | task.c:267-299 | an in-range template id loads the template into the purged slot; an out-of-range id changes nothing; other slots are untouched |
| Task.TaskStore.BuildTaskReportWord | task.c:768-891 | returns the report word of the slot and raises task_error iff the slot reports an overrun |
| Task.TaskStore.SendReport | task.c:708-756 | returns the words of slots 1..7 in order; reports an overrun iff the flag was set or some slot overruns; clears the flag |
| Task.TaskStore.RunTaskCycle | task.c:353-382 | a running task with time left does one unit of work; otherwise no record changes; other slots never change |
| Task.TaskStore.TaskCompleted | task.c:650-688 | the slot's record becomes its completed record; the met/missed counters of the report go up; no other slot or counter changes |
| Utils.DivideSpec | utils.c:68-111 | a zero divisor gives 0/0; a dividend at least the divisor gives quotient × divisor + remainder = dividend with remainder < divisor; a smaller dividend gives quotient 1 and leaves the remainder as it was |
| Utils.DivideTestsAgreeWithoutWrap | utils.c:80 | when the next sum does not pass 2^32, the loop test as written and the intended test agree |
| Utils.DivideAsWrittenNeverStops | utils.c:78-84 | with dividend 0xFFFFFFFF the written loop test holds after every pass, whatever the divisor: UTL_divide does not return |
| Utils.DivideAsWritten | utils.c:68-111 | the loop with its sum, quotient and test in U32, bounded by a pass budget: it stops at the first pass whose wrapped test fails and then applies the remainder test to the wrapped sum; when nothing wraps and the budget covers the quotient it stops with the DivideSpec result and sanity verdict |
| Utils.WrittenLoopWithoutWrap | utils.c:78-84 | when the larger of dividend and divisor plus the divisor stays below 2^32, the written loop first fails its test after max(1, number / denom) passes and leaves the intended quotient, remainder and sanity verdict |
| Utils.PowerOfTwoDivisorNeverStops | utils.c:78-84 | a divisor that divides 2^32 with a dividend within one divisor of 2^32 (0xFFFFFFF0 / 0x20 among them) never fails the written test: UTL_divide does not return |
| Utils.DivideAsWrittenMisdivides | utils.c:78-104 | dividend 5 by 0x80000000: the written loop wraps its test sum to 0, stops after two passes with quotient 2 and remainder 5 and no sanity error, where the intended result is quotient 1 with the sanity error |
| Utils.Divide | utils.c:68-111 | UTL_divide's loop with its test taken without wrap-around leaves the DivideSpec result, and the sanity error fires exactly for a dividend below a non-zero divisor |
| Utils.NulIndex | utils.c:48-55 | the position of the first NUL |
| Utils.StringCopy | utils.c:48-55 | the destination holds the source up to and including its first NUL; the bytes after it are untouched |
| TestReport.Counter.Index | test.h:27-39 | every report line has an index below TST_MAX_TST |
| TestReport.CounterIndexInjective | test.h:27-39 | distinct report lines have distinct indices |
| TestReport.UtilityValue | test.c:329-339 | value × 100 divided by duration through UTL_divide: 0 for a zero duration, 1 below the duration, else the quotient |
| TestReport.Report.constructor | test.c:76-90 | TST_init: every counter of the table starts at 0 |
| TestReport.Report.Incr | test.c:257-261 | the selected counter goes up by 1 (U32); no other counter changes |
| TestReport.Report.Add | test.c:271-276 | the selected counter goes up by val (U32); no other counter changes |
| TestReport.Report.Set | test.c:286-291 | the selected counter becomes val; no other counter changes |
| TestReport.Report.ResetValues | test.c:348-358 | all TST_MAX_TST counters become 0 |
| TestReport.Report.CalculateUtilityValue | test.c:329-339 | returns UtilityValue of the value and duration counters |
| TestReport.Report.TestReport | test.c:300-319 | TST_UTILITY becomes UtilityValue of value and duration; nothing else changes |
| Decimal.DigitOf | term.c:965 | a digit character's value is its code modulo 16, and DigitChar inverts it |
| Decimal.ValueSnoc | term.c:953-970 | appending a digit multiplies the value by 10 and adds the digit |
| Decimal.ZeroPaddedValue | messages_out.c:581-649 | a zero-padded rendering of n in w digits reads back as n |
| Decimal.ZeroPaddedUnique | messages_out.c:581-649 | a digit string is the zero-padded rendering of its own value |
| Decimal.UnpaddedValue | messages_out.c:1417-1449 | the unpadded rendering reads back as n and has no leading zero |
| Decimal.LeadingValue | messages_out.c:623-649 | the leading-digit-first rendering is the zero-padded rendering and reads back as n |
| Term.IsNumberDigits | term.c:990-997 | is_number is true exactly for the characters '0'..'9' |
| Term.MultIsPow10 | term.c:920-923 | the weight table holds the powers of ten |
| Term.FieldLength | term.c:937-944 | the scan stops at a NUL, after 6 characters, or at sizeof(line), and every scanned character is non-NUL |
| Term.FieldLengthUnique | term.c:937-944 | any length that meets the scan's stopping rule is the scan's length |
| Term.NumericInput | term.c:914-981 | the result is 0 or lies in [min, max], and stays below 10^5 |
| Term.NumericInputOfField | term.c:940-976 | a field of 6 characters or one with a non-digit reads 0; otherwise the result is the field's value if it lies in [min, max], else 0 |
| Term.GetNumericInput | term.c:914-981 | get_numeric_input's two loops return NumericInput of the line |
| Term.FieldTotal | term.c:953-970 | the right-to-left weighted sum flags a non-digit and otherwise is the decimal value of the field |
| Term.ReadsBack | term.c:914-981 | a NUL-terminated digit field within [min, max] reads back as its value |
| Term.TypedNumberReadsBack | term.c:914-981 | a number below 10^5 typed unpadded reads back as itself |
| Term.TooLongIsZero | term.c:944-950 | six or more non-NUL characters after the offset read 0 |
| Term.NonDigitIsZero | term.c:956-976 | a non-digit among the scanned characters makes the input 0 |
| Term.SecondNeverAfterFirst | term.c:612-653 | when the first number from position 3 has at least two characters, the field from position 5 is its tail and reads no larger, so the stop is always the default; a one-character start is not covered |
| Term.Terminal.constructor | term.c:52-54 | no loop run; start and stop test case 0 |
| Term.Terminal.SetUpLoopRun | term.c:612-653 | with a first number in 1..62 it is the start, and the stop is a larger second number, else 62; without one the run is 1..62; the loop flag is set |
| MessagesOut.SuppressedByOwnFlag | messages_out.c:81-86 | only VERBOSE and DEBUG messages are filtered, VERBOSE iff verbose mode is off and DEBUG iff debug mode is off |
| MessagesOut.Messages.Initialise | messages_out.c:58-64 | MESS_OUT_initialise: debug mode starts off and verbose mode on |
| MessagesOut.Messages.Message | messages_out.c:77-106 | a suppressed message prints nothing; any other message prints its text, followed by a newline unless its class is INFO_NOCR |
| MessagesOut.Messages.ToggleDebugMode | messages_out.c:505-518 | debug mode flips, verbose mode is unchanged, and the new mode is announced |
| MessagesOut.Messages.ToggleVerboseMode | messages_out.c:521-534 | verbose mode flips, debug mode is unchanged, and the new mode is announced |
| MessagesOut.ToggleAffectsOneClass | messages_out.c:505-534 | a toggle changes the filtering of exactly one message class |
| MessagesOut.Dec2Str | messages_out.c:657-705 | 0..9 map to '0'..'9' and any other value maps to NUL |
| MessagesOut.Rendered3 | messages_out.c:581-593 | the three digits build_dec8 computes are the zero-padded rendering of the number |
| MessagesOut.BuildDec8 | messages_out.c:581-593 | writes exactly 3 zero-padded digits that read back as the number, then NUL; the rest of the buffer is untouched |
| MessagesOut.Rendered5 | messages_out.c:599-615 | the five digits build_dec16 computes are the zero-padded rendering of the number |
| MessagesOut.BuildDec16 | messages_out.c:599-615 | writes exactly 5 zero-padded digits that read back as the number, then NUL; the rest is untouched |
| MessagesOut.Rendered10 | messages_out.c:623-649 | the ten digits build_dec32 computes are the zero-padded rendering of the number |
| MessagesOut.BuildDec32 | messages_out.c:623-649 | writes exactly 10 zero-padded digits that read back as the number, then NUL; the rest is untouched |
| MessagesOut.DecWidth | messages_out.c:556-573 | the width build_dec picks is 3, 5 or 10 and always holds the number |
| MessagesOut.BuildDec | messages_out.c:556-573 | above 0xFFFF the 10-digit form, above 0xFF the 5-digit form, else the 3-digit form |
| MessagesOut.TwoDigits | messages_out.c:1434-1445 | a field printed as "%02d": `0` and the digit below 10, exactly two digits below 100, no leading zero from 10 up, and it reads back as its number |
| MessagesOut.DecodeSeconds | messages_out.c:1417-1449 | the text is hours, minutes and seconds joined by ':'; minutes and seconds take two digits, the hours field is `0` and the digit below 10 hours, two digits below 100 hours and has no leading zero from 10 hours up; the fields read back as s/3600, (s mod 3600)/60 and s mod 60 |
| ListClients.CStr | list_clients.c:318-365 | the C string a buffer holds is its prefix before the first NUL |
| ListClients.FileTypeIsValid | list_clients.c:369-393 | true iff the name ends, at its given length, in ".c", ".C", ".h" or ".H" |
| ListClients.RemoveFileExtent | list_clients.c:397-402 | the only change is a NUL at len - 2, so the string is now the stem |
| ListClients.CompareFileNames | list_clients.c:318-365 | true iff the lengths agree as U8, both names are valid source or header names, and the stems are equal |
| ListClients.LocalCopy | list_clients.c:327-328 | the local buffer holds the name followed by NUL |
| ListClients.SameModuleCases | list_clients.c:318-365 | different lengths never match; equal lengths match iff both types are valid and the stems are equal |
| ListClients.SameModuleShortNames | list_clients.c:318-365 | for names shorter than 256 characters, a match is equal length, two valid types and equal stems |
| ListClients.SourceMatchesHeader | list_clients.c:318-365 | the extension is not compared, so "x.c" matches "x.h" |
| ListClients.DifferentStems | list_clients.c:318-365 | names with different stems never match |
| ListClients.SameModuleSymmetric | list_clients.c:318-365 | the comparison is symmetric |
| ListClients.IsTokenAComment | list_clients.c:284-314 | true iff the token is longer than 3 characters, whatever its content |
| ListClients.FirstToken | list_clients.c:258-263 | the first token is the space-free run after the leading spaces, and is empty only for a blank line |
| ListClients.LineValid | list_clients.c:249-280 | for a C string (no NUL inside), true iff the line is longer than 1 character, because the comment check's result is overwritten |
| ListClients.StrStr | list_clients.c:227-235 | a hit is the first occurrence at or after the start; a miss means there is no occurrence from the start on |
| ListClients.StrStrFinds | list_clients.c:227-235 | strstr finds the function name iff it occurs in the line |
| ListClients.ParseLine | list_clients.c:212-244 | for C strings (no NUL inside), true iff the line is valid and the function name occurs in it |
| ListClients.MentionedFunctionFound | list_clients.c:212-244 | a line that contains the function name is found |
| Queues.Queue.Index | scheduler.c:56-81 | each of the seven headers has an index below NUM_OF_QUEUES |
| Queues.QueueIndexInjective | scheduler.c:56-81 | distinct headers have distinct indices |
| Queues.SetNext | task.h:105-110 | writing one next link changes that link only |
| Queues.SetPrev | task.h:105-110 | writing one prev link changes that link only |
| Queues.LinkedFrame | scheduler.c:2003-2596 | a list stays linked when no link of its members changes |
| Queues.SpliceInserts | scheduler.c:2111-2133 | linking a task between the walk's prev and next inserts it at that position of the list; the list stays linked, acyclic and distinct |
| Queues.SpliceFrame | scheduler.c:2111-2133 | the splice changes no link except those of the task, prev and next |
| Queues.NullSpliceTruncates | scheduler.c:2230-2249 | splicing the null task 0 cuts the list at the walk's position, so the tasks from there on are no longer on the queue |
| Queues.NullInsertEmptiesQueue | scheduler.c:2143-2250 | q1_insert(0) into a priority-ordered doubled queue stops at once and leaves the header null, so the non-empty queue reads as empty |
| Queues.ExtractFirst | scheduler.c:2356-2371 | q_extract_first keeps one link record per slot; what it returns and leaves is stated by ExtractFirstRemovesHead |
| Queues.ExtractFirstRemovesHead | scheduler.c:2356-2371 | an empty queue returns 0 and changes nothing; otherwise the old head is returned and the list is the tail, still linked |
| Queues.ExtractFirstFrame | scheduler.c:2356-2371 | no link other than the successor's prev changes |
| Queues.UnlinkRemoves | scheduler.c:2377-2498 | unlinking a member removes exactly it, keeps the others' order and clears its own links |
| Queues.UnlinkFrame | scheduler.c:2377-2498 | unlinking changes no link outside the member and its neighbours on that link set |
| Queues.UnlinkQ1Member | scheduler.c:2433-2464 | q1_extract of a member is the plain unlink |
| Queues.UnlinkQ1NonMember | scheduler.c:2444-2453 | q1_extract of a non-member writes only slot 0's q1 next link and leaves the queue as it was |
| Queues.InsertIndex | scheduler.c:2013-2100 | the walk stops at the first member the task does not go behind, having passed only members it goes behind |
| Queues.InsertIndexUnique | scheduler.c:2013-2100 | that stopping position is unique |
| Queues.InsertIndexSplits | scheduler.c:2013-2100 | in a sorted list the task goes behind exactly the members before the stop |
| Queues.InsertKeepsSorted | scheduler.c:2003-2133 | ordered insertion keeps a sorted list sorted |
| Queues.Q0Placement | scheduler.c:2003-2133 | EDF-like and SPT insertions go after equal keys; RM, DRM, LLF and MLLF go before equal keys; MUF goes by descending urgency; any other algorithm links at the head |
| Queues.InsertKeepsQueues | scheduler.c:2003-2349 | an insertion keeps every header's list linked and the queues on a link set disjoint |
| Queues.InsertedSeparate | scheduler.c:2003-2349 | the queues stay disjoint after an insertion |
| Queues.UnlinkKeepsQueues | scheduler.c:2377-2498 | an unlink keeps every list linked and the queues disjoint |
| Queues.RemovedSeparate | scheduler.c:2377-2498 | the queues stay disjoint after an unlink |
| Queues.ExtractFirstKeepsQueues | scheduler.c:2356-2371 | a head extraction keeps every list linked and the queues disjoint |
| Queues.InsertKeepsQueuesOk | scheduler.c:2003-2349 | insertion keeps the queue invariant, including null links for slot 0 and for non-members |
| Queues.UnlinkKeepsQueuesOk | scheduler.c:2377-2498 | an unlink keeps the queue invariant |
| Queues.ExtractFirstKeepsQueuesOk | scheduler.c:2356-2371 | a head extraction keeps the queue invariant, with slot 0's prev link written and restored |
| Queues.UnlinkQ1KeepsQueuesOk | scheduler.c:2433-2464 | q1_extract keeps the queue invariant for members and non-members alike |
| Queues.Number | scheduler.c:2506-2596 | the queue numbers the link sets pass to the queries are 0, 1 and 2 |
| Queues.QEmpty | scheduler.c:2506-2537 | an unknown queue number answers not empty |
| Queues.QFirstId | scheduler.c:2545-2567 | an unknown queue number answers 0 |
| Queues.QSecondId | scheduler.c:2574-2596 | an unknown queue number answers 0 |
| Queues.QueriesReadList | scheduler.c:2506-2596 | q_empty is true iff the list is empty; q_first_id is the head or 0; q_second_id is the second member or 0 |
| Metrics.Laxity | scheduler.c:2629-2647 | laxity is positive iff the deadline lies beyond now + time_left (U32), and is then the difference; otherwise 0 |
| Metrics.LaxityIsSlack | scheduler.c:2629-2647 | without wrap, laxity is max(0, abs_dline - now - time_left) and never exceeds the deadline |
| Metrics.LaxityIdempotent | scheduler.c:2629-2647 | recalculating a stored laxity gives the same value |
| Metrics.WithLaxitiesTouchesOnlyLaxity | scheduler.c:2602-2624 | calculate_all_laxities writes only laxity, and only for READY/RUN/SKIPPED/PREMPT tasks in slots 1..7 |
| Metrics.UrgencyFields | scheduler.c:2702-2731 | the urgency word holds the critical bit, the complemented 27-bit laxity shifted by 4, and the low 4 priority bits |
| Metrics.CriticalIsMoreUrgent | scheduler.c:2702-2731 | a critical task is always more urgent than a non-critical one |
| Metrics.LessLaxityIsMoreUrgent | scheduler.c:2702-2731 | with equal critical flag and priority, a smaller laxity gives a larger urgency |
| Metrics.WithUrgenciesTouchesOnlySpare4 | scheduler.c:2656-2678 | calculate_all_muf_urgencies writes only MUF_URGENCY, and only for the active tasks |
| Metrics.EPriorityFields | scheduler.c:2843-2857 | e_priority holds the low 4 multiplier bits over the complemented low 4 priority bits |
| Metrics.EPriorityOrder | scheduler.c:2843-2857 | a larger multiplier gives a larger e_priority; with equal multipliers a smaller priority number gives a larger one |
| Metrics.WithEPrioritiesTouchesOnlyEPriority | scheduler.c:2789-2826 | get_active_task_priority writes only e_priority, for slots 1..7 |
| Metrics.TaskUtilityValue | scheduler.c:2949-2978 | utilisation is c_duration × 1000 / period through UTL_divide (U16): 0 for a zero period, 1 when c_duration × 1000 is below the period, otherwise the quotient when the product fits U32 |
| Metrics.Contribution | scheduler.c:2985-3024 | a task contributes at most its utilisation, and all of it unless it is flexible with its period doubled |
| Metrics.WithUtilitiesIdempotent | scheduler.c:2900-2941 | recalculating the utilities twice is the same as once |
| Metrics.WithUtilitiesTouchesOnlyUtil | scheduler.c:2900-2941 | calculate_all_task_utilities writes only task_util |
| Metrics.Wrap16Of32 | scheduler.c:2985-3023 | truncating the U32 sum to U16 is the same as summing modulo 2^16 |
| Metrics.RemovableCount | scheduler.c:2737-2776 | the number of removable tasks is at most the slot count |
| Metrics.RemovableCountZero | scheduler.c:2737-2776 | no removable task counts iff no slot in 1..7 is removable |
| Metrics.RemovableCountDrops | scheduler.c:2737-2776 | a step that makes one removable task non-removable and keeps the others lowers the count |
| Metrics.LowestUpTo | scheduler.c:2737-2776 | the candidate found so far is 0 or a removable task with its priority |
| Metrics.LowestUpToPicks | scheduler.c:2737-2776 | the scan picks the removable task with the largest priority number, the earliest on ties, or 0 when there is none |
| Metrics.LowestActivePicks | scheduler.c:2737-2776 | get_lowest_priority_active_task returns 0 iff no task is removable, and otherwise the least important removable task |
| Metrics.ActiveUpTo | scheduler.c:2789-2826 | the candidate found so far is 0 or a doublable task with its e_priority |
| Metrics.ActiveUpToPicks | scheduler.c:2789-2826 | the scan picks the doublable task with the lowest e_priority, the earliest on ties |
| Metrics.ActiveCandidatePicks | scheduler.c:2789-2826 | get_active_task_priority returns 0 iff no task is doublable, and otherwise the doublable task with the lowest e_priority |
| Metrics.PeriodDoubledChanges | scheduler.c:3068-3134 | a task that is not flexible is unchanged; a flexible one gets multiplier + 1 (U8) and per_doubles + 1 (U32); a READY/RUN/PREMPT flexible task also gets abs_dline + rel_dline × new multiplier (U32); no other field changes |
| Metrics.PeriodHalvedUndoesDoubled | scheduler.c:3140-3172 | halving changes only the multiplier, never the deadline, and undoes the multiplier step of a doubling |
| Metrics.PeriodDoubledIsNotRemovable | scheduler.c:3068-3134 | a doubled removable task has multiplier 1 and is no longer a candidate |
| SchedState.Memberships | scheduler.c:65-71 | the membership bits say, for each header, whether the slot is on its list |
| SchedState.MirrorEmpty | scheduler.c:861-868 | under ADAP-5/6, an empty ready queue means an empty lst queue |
| SchedOps.IndexOf | scheduler.c:2377-2498 | the position of a member in its list |
| SchedOps.ExtractHeader | scheduler.c:2377-2425 | q0_extract picks the removed queue for REMOVED, the idle queue for IDLE, and the ready queue otherwise; all three are on the q0 link set |
| SchedOps.ExtractHeaderFinds | scheduler.c:2377-2425 | in a consistent state that header's list holds the task |
| SchedOps.Inserted | scheduler.c:2003-2349 | an insertion changes only the links and the header's list, which gains the task at its ordered position |
| SchedOps.FirstOut | scheduler.c:2356-2371 | q_extract_first on a snapshot drops the head of the list and changes no record |
| SchedOps.Out | scheduler.c:2377-2498 | the extract on a snapshot drops the member from its list and changes no record |
| SchedOps.Q1Out | scheduler.c:2433-2464 | q1_extract on a snapshot changes no record, runner, algorithm or counter, and a non-member leaves the snapshot as it was |
| SchedOps.Counted | test.c:271-276 | adds v to one report counter (U32), leaving the others |
| SchedOps.WithRecord | scheduler.c:884-986 | a record write changes that record only |
| SchedOps.LaxityOf | scheduler.c:2629-2647 | calculate_laxity stores the laxity of that task |
| SchedOps.MetricsKeep | scheduler.c:2602-2941 | recalculating laxities, urgencies, utilities or e_priorities keeps the invariant and every task's role |
| SchedOps.InsertedBut | scheduler.c:2003-2349 | an insertion keeps the invariant for every other task and sets the header's membership bit |
| SchedOps.OutBut | scheduler.c:2377-2498 | an extraction keeps the invariant for every other task and clears the header's membership bit |
| SchedOps.Q1OutBut | scheduler.c:2433-2464 | q1_extract keeps the invariant for every other task and clears the doubled bit |
| SchedOps.HeadOut | scheduler.c:2356-2371 | extracting the head of a queue keeps every other task consistent |
| SchedOps.RecordFits | scheduler.c:884-986 | a record whose role fits its queues restores the invariant |
| SchedOps.RemovedFit | scheduler.c:3032-3062 | returns 0 or a removed task whose utilisation fits the spare, the first such in queue order; with slot 0 off the queue it returns 0 iff no member fits |
| SchedOps.DoubledFit | scheduler.c:759-780 | returns 0 or a doubled task whose utilisation fits the spare shifted left by its multiplier, the first such in queue order; with slot 0 off the queue it returns 0 iff no member fits |
| SchedSteps.WaitingStep | scheduler.c:519-549 | the due waiting head ends on the idle queue as IDLE; the waiting queue gets shorter; runner, algorithm and counters unchanged |
| SchedSteps.WaitingStepKeeps | scheduler.c:519-549 | moving a due waiting head keeps the invariant |
| SchedSteps.ProcessWaiting | scheduler.c:519-549 | afterwards no waiting head is due; the running task, algorithm and counters are unchanged |
| SchedSteps.ProcessCompleted | scheduler.c:561-588 | process_completed_tasks keeps the arena and queue shapes and the algorithm; ProcessCompletedKeeps states the invariant |
| SchedSteps.CompletedIdleKeeps | scheduler.c:561-588 | the periodic completion keeps the invariant |
| SchedSteps.CompletedSleepKeeps | scheduler.c:561-588 | the one-shot completion keeps the invariant |
| SchedSteps.ProcessCompletedKeeps | scheduler.c:561-588 | process_completed_tasks keeps the invariant |
| SchedSteps.RemovedStep | scheduler.c:614-625 | the restored task ends on the idle queue, IDLE with its deadline set to now; the removed queue gets shorter; runner, algorithm and counters unchanged |
| SchedSteps.RemovedStepKeeps | scheduler.c:614-625 | restoring a removed task keeps the invariant |
| SchedSteps.RemovedLoop | scheduler.c:611-643 | the restore loop keeps the invariant and the running task |
| SchedSteps.ProcessRemoved | scheduler.c:594-645 | process_removed_tasks keeps the invariant, the running task, the algorithm and the counters |
| SchedSteps.Spare | scheduler.c:604-606 | the spare utilisation plus the set utilisation is exactly 100% |
| SchedSteps.HalveStep | scheduler.c:669-696 | the task gets its halved record and leaves the doubled queue, no other queue changes; runner, algorithm and counters unchanged |
| SchedSteps.HalveStepKeeps | scheduler.c:669-696 | halving a doubled task keeps the invariant |
| SchedSteps.Doubled4Loop | scheduler.c:658-698 | the ADAP-4 restore loop keeps the invariant |
| SchedSteps.SlotWeight | scheduler.c:709-745 | a slot weighs something iff it is on the doubled queue |
| SchedSteps.RehalveStep | scheduler.c:714-732 | re-halving a doubled task keeps the runner, algorithm and counters |
| SchedSteps.RehalveKeepsDoubled | scheduler.c:720-729 | a task still doubled after halving is re-inserted in e_priority order, keeping the invariant |
| SchedSteps.RehalveStepKeeps | scheduler.c:714-732 | re-halving keeps the invariant |
| SchedSteps.RehalveStepWeighs | scheduler.c:709-745 | re-halving lowers the halved task's weight and keeps every other slot's, so the ADAP-6/7 restore loop ends |
| SchedSteps.Doubled67Loop | scheduler.c:699-747 | the ADAP-6/7 restore loop keeps the invariant |
| SchedSteps.UtilitiesKeepWeight | scheduler.c:699-747 | recalculating utilities keeps every slot's weight |
| SchedSteps.ProcessDoubled | scheduler.c:652-752 | process_doubled_periods keeps the invariant, the running task, the algorithm and the counters |
| SchedSteps.Rearmed | scheduler.c:796-805 | a released skipped task gets deadline now + rel_dline (U32), time_left = c_duration and NOT_SKIPPED = its skip gap (U8); nothing else changes |
| SchedSteps.SkipTarget | scheduler.c:807-818 | a released skipped task goes to the ready or the idle queue |
| SchedSteps.SkippedReleased | scheduler.c:787-820 | extracting a due skipped head shortens the skipped queue and keeps the runner, algorithm and counters |
| SchedSteps.SkippedStep | scheduler.c:787-820 | the due skipped head ends READY on the ready queue or IDLE on the idle queue; the skipped queue gets shorter; runner, algorithm and counters unchanged |
| SchedSteps.SkippedStepKeeps | scheduler.c:787-820 | releasing a skipped head keeps the invariant |
| SchedSteps.ProcessSkipped | scheduler.c:787-820 | afterwards no skipped head is due; running task, algorithm and counters unchanged |
| SchedSteps.Released | scheduler.c:838-855 | abs_dline grows by rel_dline, times 2^multiplier for a flexible task (U32); time_left becomes c_duration; the state becomes READY; nothing else changes |
| SchedSteps.IdleReleased | scheduler.c:826-877 | extracting a due idle head shortens the idle queue and keeps the runner, algorithm and counters |
| SchedSteps.IdleStep | scheduler.c:826-877 | the due idle head ends READY on the ready queue; the idle queue gets shorter; runner, algorithm and counters unchanged |
| SchedSteps.IdleStepKeeps | scheduler.c:826-877 | releasing an idle head keeps the invariant |
| SchedSteps.IdleMirroredKeeps | scheduler.c:861-868 | the extra lst insertion under ADAP-5/6 keeps the invariant |
| SchedSteps.MirrorInsertKeeps | scheduler.c:865-868 | a task consistent but for the lst queue is made consistent by its q2 insertion |
| SchedSteps.ProcessIdle | scheduler.c:826-877 | afterwards no idle head is due; running task, algorithm and counters unchanged |
| SchedSteps.Loading | task.c:267-299 | TSK_add_task on a snapshot changes no list, header, runner, algorithm or counter |
| SchedSteps.Admitted | scheduler.c:306-332 | an admitted task is WAITING with abs_dline = release when it has a release time, else IDLE; c_duration becomes its duration; the multiplier is kept |
| SchedSteps.AdmittedQueue | scheduler.c:314-332 | the admitted task's queue is on the q0 link set |
| SchedSteps.Added | scheduler.c:291-345 | SCH_add_task on a snapshot keeps the arena and queue shapes; AddedKeeps states the invariant |
| SchedSteps.AddedKeeps | scheduler.c:291-345 | adding a task into a slot that is on no queue and not running keeps the invariant |
| SchedPolicy.Head | scheduler.c:2545-2567 | the ready queue's head, or 0 |
| SchedPolicy.Second | scheduler.c:2574-2596 | the ready queue's second member, or 0 |
| SchedPolicy.PreemptedRecord | scheduler.c:1915-1933 | the preempted task becomes PREMPT with pre_count + 1 (U8) and nothing else changes |
| SchedPolicy.Preempt | scheduler.c:1915-1933 | preempt_task puts the old runner back into the ready queue as PREMPT and leaves no task running |
| SchedPolicy.PreemptKeeps | scheduler.c:1915-1933 | preempting keeps the invariant |
| SchedPolicy.PreemptPlaces | scheduler.c:1915-1933 | the preempted task goes into the ready queue at its ordered position |
| SchedPolicy.DispatchedRecord | scheduler.c:1940-1958 | the dispatched task becomes RUN and its not-skipped count drops by 1, never below 0 |
| SchedPolicy.Dispatch | scheduler.c:1940-1958 | dispatch_next_task takes the ready head, which becomes running_task_id with its dispatched record; an empty ready queue changes nothing; no queue but ready and lst changes |
| SchedPolicy.DispatchKeeps | scheduler.c:1940-1958 | dispatching keeps the invariant |
| SchedPolicy.SkippedRecord | scheduler.c:1965-1992 | a skipped task becomes SKIPPED; a deadline at or before now moves to now + rel_dline (U32); nothing but spare_2 otherwise changes |
| SchedPolicy.SkipCountsShareField | scheduler.c:1965-1992 | NOT_SKIPPED becomes skip gap + 1 and TOTAL_SKIPS, the same field, reads the same value |
| SchedPolicy.SkipFirst | scheduler.c:1965-1992 | skip_first_task moves the ready head to the skipped queue |
| SchedPolicy.SkipFirstKeeps | scheduler.c:1965-1992 | skipping keeps the invariant |
| SchedPolicy.Switch | scheduler.c:1915-1958 | preempt when something runs, then dispatch, keeping the invariant |
| SchedPolicy.PreemptedSameKeys | scheduler.c:2003-2133 | preemption does not change a task's ordering keys |
| SchedPolicy.SwitchRunsHead | scheduler.c:1915-1958 | when the runner goes behind the head, the switch runs the old head and requeues the runner as PREMPT |
| SchedPolicy.IrmSwitchKeepsRunning | scheduler.c:1493-1515 | under IRM the preempted runner is linked at the head and dispatched again |
| SchedPolicy.Prepared | scheduler.c:1449-1767 | the per-policy metric refresh changes records only; under DRM the head's laxity is recalculated |
| SchedPolicy.PreparedKeeps | scheduler.c:1449-1767 | that refresh keeps the invariant |
| SchedPolicy.Policy | scheduler.c:1400-1793 | each schedule_* policy keeps the invariant and the algorithm |
| SchedPolicy.EdfPolicy | scheduler.c:1671-1710 | EDF keeps the invariant and changes nothing unless the head is preferred |
| SchedPolicy.PolicyDecides | scheduler.c:1400-1767 | when the head is not preferred, the policy only refreshes metrics; when it is (for RM, DRM, MUF, EDF, SPT and LLF, or with nothing running) the head runs |
| SchedPolicy.BeatsIsBehind | scheduler.c:1400-1767 | each policy's "strictly better" test means the runner goes behind the head in the queue order |
| SchedPolicy.IrmKeepsRunningTask | scheduler.c:1493-1515 | under IRM the running task keeps running |
| SchedPolicy.DrmNeedsZeroLaxity | scheduler.c:1466-1474 | DRM keeps the running task (or none) whenever the head's laxity is not zero |
| SchedPolicy.EdfRunsEarlierHead | scheduler.c:1671-1710 | when EDF switches, the old head runs |
| SchedPolicy.CanMeetIgnoresDeadline | scheduler.c:2892-2895 | can_meet_deadline tests time_left + timeval != 0, so the deadline does not matter |
| SchedPolicy.SkipRto | scheduler.c:1804-1862 | schedule_skip_rto keeps the invariant |
| SchedPolicy.SkipRtoOnlyPreempts | scheduler.c:1850-1857 | with a task running it preempts iff the head's deadline is earlier and its time left is below the runner's laxity, dispatching nothing; otherwise nothing changes |
| SchedPolicy.SkipThenDispatch | scheduler.c:1804-1862 | with nothing running, skipping the head keeps the invariant, the head lands on the skipped queue and the second task runs |
| SchedPolicy.SkipRtoSkipsHead | scheduler.c:1815-1840 | with nothing running, a head with no skips owed, when it and the second task cannot both meet their deadlines, is skipped and the second task runs |
| SchedAdapt.RemovedRecord | scheduler.c:1033-1039 | a removed task becomes REMOVED and TOTAL_SKIPS, which is spare_2, goes up by 1 |
| SchedAdapt.RemovedOnlyOnce | scheduler.c:1033-1039 | the increment turns PERIOD_FLEXIBLE to 2, so a removed task is never a candidate again |
| SchedAdapt.Unhooked | scheduler.c:1029-1033 | the task leaves its queue, TOTAL_SKIPS goes up by 1 and the removals counter goes up |
| SchedAdapt.Removal | scheduler.c:1029-1039 | the task's record becomes its removed record and the removals counter goes up; the runner and algorithm stay |
| SchedAdapt.RemovalKeeps | scheduler.c:1029-1039 | removing a queued task keeps the invariant and leaves it on the removed queue |
| SchedAdapt.Unseat | scheduler.c:1022-1026 | a running candidate is preempted first; any other candidate changes nothing |
| SchedAdapt.RemoveStep | scheduler.c:1013-1050 | one pass of the ADAP-1/2 loop keeps the invariant, leaves the candidate on the removed queue with its removed record, and preempts it if it was running |
| SchedAdapt.RemoveStepRecords | scheduler.c:1013-1050 | the pass changes only the candidate's record, to its removed record |
| SchedAdapt.LowestIsRemovable | scheduler.c:2737-2776 | the pick is removable, and 0 iff none is |
| SchedAdapt.RemoveStepCounts | scheduler.c:1013-1050 | each pass removes a candidate, so the loop measure drops |
| SchedAdapt.Adap1Loop | scheduler.c:1007-1052 | with utility at most 100% nothing happens; a loop that returns leaves the utility at most 100% and keeps the invariant; overloaded with no candidate, it spins (Hung) |
| SchedAdapt.Adap1 | scheduler.c:997-1060 | the ADAP-1/2 handler hangs when the set is overloaded with no candidate; when it returns it keeps the invariant |
| SchedAdapt.LaxityKeepsUtility | scheduler.c:2629-2647 | recalculating a laxity does not change the set utility |
| SchedAdapt.LaxitiesKeepCount | scheduler.c:2602-2624 | recalculating laxities changes no task's removability |
| SchedAdapt.Doubling | scheduler.c:3068-3134 | double_task_period on a snapshot changes that record only |
| SchedAdapt.DoubleStep | scheduler.c:1086-1091 | the task's record becomes its doubled record; the ready queue and the runner stay |
| SchedAdapt.DoubleStepKeeps | scheduler.c:1086-1091 | doubling and queueing keeps the invariant |
| SchedAdapt.DoubleLowestKeeps | scheduler.c:1086-1091 | doubling the lowest candidate keeps the invariant, puts it on the doubled queue and lowers the candidate count |
| SchedAdapt.Adap3Loop | scheduler.c:1080-1103 | with utility at most 100% nothing happens; a loop that returns leaves the utility at most 100% and keeps the invariant; overloaded with no candidate, it spins |
| SchedAdapt.Adap3 | scheduler.c:1070-1107 | the ADAP-3/4 handler hangs when overloaded with no candidate; when it returns it keeps the invariant |
| SchedAdapt.Adap5Loop | scheduler.c:1128-1161 | it returns at once when the head's laxity covers the runner's time left; a loop that returns leaves it so; with the test failing and no candidate, it spins |
| SchedAdapt.Adap5Next | scheduler.c:1138-1153 | one pass keeps the invariant and lowers the number of candidates |
| SchedAdapt.Adap5 | scheduler.c:1116-1165 | the ADAP-5 handler hangs when the laxity test fails with no candidate; when it returns it keeps the invariant |
| SchedAdapt.Overrun | scheduler.c:1187-1195 | the injected fault adds v to the runner's time_taken (U32) only, keeping the invariant |
| SchedAdapt.Recalculated | scheduler.c:1198-1204 | utilities and the head's laxity are recalculated; the lists, runner and invariant stay |
| SchedAdapt.DoubleLowest | scheduler.c:1227-1232 | a non-zero pick is doubled and queued; a pick of 0 doubles slot 0's record and queues nothing |
| SchedAdapt.Adap6Loop | scheduler.c:1206-1249 | the loop makes at most five passes and makes none when the count is used up or the utility and laxity tests already hold |
| SchedAdapt.Adap6LoopSettles | scheduler.c:1206-1249 | a loop that stops before its fifth pass leaves utility at most 100% and the head's laxity covering the runner |
| SchedAdapt.Adap6LoopStops | scheduler.c:1206-1249 | a loop whose exit test already holds makes no pass |
| SchedAdapt.Adap6 | scheduler.c:1174-1259 | the ADAP-6 handler always returns, keeping the invariant |
| SchedAdapt.Requeued | scheduler.c:1339-1348 | the candidate's record becomes its doubled record; the runner and algorithm stay |
| SchedAdapt.RequeuedKeeps | scheduler.c:1339-1348 | requeueing keeps the invariant and leaves the candidate on the doubled queue |
| SchedAdapt.Adap7Step | scheduler.c:1339-1348 | a non-zero candidate is requeued doubled; a candidate of 0 doubles slot 0's record and queues nothing |
| SchedAdapt.Adap7Loop | scheduler.c:1316-1365 | the loop makes at most ten passes, tests only the utility, and a loop that stops early leaves it at most 100% |
| SchedAdapt.Adap7LoopKeeps | scheduler.c:1316-1365 | the loop's result keeps the invariant |
| SchedAdapt.Adap7 | scheduler.c:1269-1375 | the ADAP-7 handler always returns, keeping the invariant |
| SchedAdapt.Adap1LoopTurn | scheduler.c:1007-1052 | an overloaded pass with no candidate spins; otherwise the loop goes on from the removal |
| SchedAdapt.Adap3LoopTurn | scheduler.c:1080-1103 | an overloaded pass with no candidate spins; otherwise the loop goes on from the doubling |
| SchedAdapt.Adap5LoopTurn | scheduler.c:1128-1161 | a failing laxity test with no candidate spins; otherwise the loop goes on from the next pass |
| SchedTick.ProcessReady | scheduler.c:884-986 | an empty ready queue changes nothing; RR and CYC change nothing; only the ADAP-1..5 handlers can hang; a return keeps the invariant |
| SchedTick.Refreshed | scheduler.c:358-366 | laxities, and urgencies for the MUF family, are recalculated; the lists and the runner stay |
| SchedTick.Housekeeping | scheduler.c:356-390 | the stages before process_ready_tasks keep the invariant and the algorithm |
| SchedTick.Start | scheduler.c:356-392 | SCH_start keeps the invariant and returns for every algorithm but ADAP-1..5 |
| SchedTick.Cycled | task.c:353-382 | TSK_run_task_cycle on the snapshot: the runner works and the duration counter goes up |
| SchedTick.Tick | test.c:163-171 | the time goes up by 1 (U32), the task cycle runs before SCH_start, and the test ends once the time passes the duration |
| SchedObject.Scheduler.constructor | scheduler.c:170-188 | SCH_init: every header is null, every queue empty, the algorithm CYC |
| SchedObject.Scheduler.Insert | scheduler.c:2003-2349 | q0/q1/q2_insert leaves the snapshot Inserted, with the task at its ordered position |
| SchedObject.Scheduler.Walk | scheduler.c:2013-2100 | the walk stops at InsertIndex, with prev and next its neighbours |
| SchedObject.Scheduler.ExtractFirst | scheduler.c:2356-2371 | returns the old head (or 0) and leaves the list's tail |
| SchedObject.Scheduler.Q0Extract | scheduler.c:2377-2425 | splices the task out of the queue its state selects |
| SchedObject.Scheduler.Q2Extract | scheduler.c:2472-2498 | splices the task out of the lst queue |
| SchedObject.Scheduler.Q1Extract | scheduler.c:2433-2464 | splices the task out of the doubled queue; a non-member changes no list |
| SchedObject.Scheduler.ResetQueues | scheduler.c:217-282 | clears the links of slots 1..7 and every header, leaving all queues empty and slot 0 untouched |
| SchedObject.Scheduler.SoftReset | scheduler.c:193-212 | SCH_soft_reset resets the queues |
| SchedObject.Scheduler.AddTask | scheduler.c:291-345 | leaves the snapshot Added and keeps the invariant |
| SchedObject.Scheduler.SetNotSkipped | scheduler.c:335 | NOT_SKIPPED, and so PERIOD_FLEXIBLE and TOTAL_SKIPS, becomes the skip gap |
| SchedObject.Scheduler.CalculateLaxity | scheduler.c:2629-2647 | stores and returns the task's laxity |
| SchedObject.Scheduler.CalculateAllLaxities | scheduler.c:2602-2624 | leaves the snapshot Laxities |
| SchedObject.Scheduler.CalculateMufUrgency | scheduler.c:2702-2731 | stores the urgency word in spare_4 |
| SchedObject.Scheduler.CalculateAllMufUrgencies | scheduler.c:2656-2678 | leaves the snapshot Urgencies |
| SchedObject.Scheduler.LowestPriorityActiveTask | scheduler.c:2737-2776 | returns LowestActive, which is 0 iff no task is removable |
| SchedObject.Scheduler.CalculateActiveTaskPriority | scheduler.c:2843-2857 | stores the task's e_priority |
| SchedObject.Scheduler.ActiveTaskPriority | scheduler.c:2789-2826 | writes every e_priority and returns the candidate with the lowest |
| SchedObject.Scheduler.CalculateTaskUtility | scheduler.c:2949-2978 | stores and returns the task's utilisation |
| SchedObject.Scheduler.CalculateAllTaskUtilities | scheduler.c:2900-2941 | leaves the snapshot Utilities and returns the U16 sum |
| SchedObject.Scheduler.TaskSetUtility | scheduler.c:2985-3024 | returns SetUtility of the records |
| SchedObject.Scheduler.HeadDue | scheduler.c:519-549 | tells whether the queue's head is due at now |
| SchedObject.Scheduler.ProcessWaitingTasks | scheduler.c:519-549 | leaves the snapshot ProcessWaiting |
| SchedObject.Scheduler.Release | scheduler.c:840-860 | the record becomes its released record |
| SchedObject.Scheduler.ProcessIdleTasks | scheduler.c:826-877 | leaves the snapshot ProcessIdle |
| SchedObject.Scheduler.PreemptTask | scheduler.c:1915-1933 | leaves the snapshot Preempt |
| SchedObject.Scheduler.DispatchNextTask | scheduler.c:1940-1958 | leaves the snapshot Dispatch |
| SchedObject.Scheduler.SkipFirstTask | scheduler.c:1965-1992 | leaves the snapshot SkipFirst |
| SchedObject.Scheduler.RemovedQueueFit | scheduler.c:3032-3062 | returns RemovedFit |
| SchedObject.Scheduler.ProcessRemovedTasks | scheduler.c:594-645 | leaves the snapshot ProcessRemoved |
| SchedObject.Scheduler.DoubledQueueFit | scheduler.c:759-780 | returns DoubledFit |
| SchedObject.Scheduler.ProcessDoubledPeriods | scheduler.c:652-752 | leaves the snapshot ProcessDoubled |
| SchedObject.Scheduler.SchedulePolicy | scheduler.c:1400-1793 | leaves the snapshot Policy |
| SchedObject.Scheduler.ScheduleEdf | scheduler.c:1671-1710 | leaves the snapshot EdfPolicy |
| SchedObject.Scheduler.ScheduleSkipRto | scheduler.c:1804-1862 | leaves the snapshot SkipRto |
| SchedObject.Scheduler.DoubleTaskPeriod | scheduler.c:3068-3134 | leaves the snapshot Doubling |
| SchedObject.Scheduler.RemoveTask | scheduler.c:1025-1050 | leaves the snapshot Removal |
| SchedObject.Scheduler.RemovalLoop | scheduler.c:1007-1058 | reports a hang iff Adap1Loop hangs, and otherwise leaves its state |
| SchedObject.Scheduler.ScheduleAdap1 | scheduler.c:997-1060 | reports a hang iff Adap1 hangs, and otherwise leaves its state |
| SchedObject.Scheduler.DoublingLoop | scheduler.c:1080-1105 | reports a hang iff Adap3Loop hangs, and otherwise leaves its state |
| SchedObject.Scheduler.ScheduleAdap3 | scheduler.c:1070-1107 | reports a hang iff Adap3 hangs, and otherwise leaves its state |
| SchedObject.Scheduler.LaxityLoop | scheduler.c:1128-1160 | reports a hang iff Adap5Loop hangs, and otherwise leaves its state |
| SchedObject.Scheduler.ScheduleAdap5 | scheduler.c:1116-1165 | reports a hang iff Adap5 hangs, and otherwise leaves its state |
| SchedObject.Scheduler.ScheduleAdap6 | scheduler.c:1174-1259 | leaves the snapshot Adap6 |
| SchedObject.Scheduler.Adap6Passes | scheduler.c:1215-1255 | the loop of at most five passes leaves Adap6Loop's state |
| SchedObject.Scheduler.ScheduleAdap7 | scheduler.c:1269-1375 | leaves the snapshot Adap7 |
| SchedObject.Scheduler.Adap7Passes | scheduler.c:1310-1365 | the loop of at most ten passes leaves Adap7Loop's state |
| SchedObject.Scheduler.ProcessReadyTasks | scheduler.c:884-986 | reports a hang iff ProcessReady hangs, and otherwise leaves its state |
| SchedObject.Scheduler.Start | scheduler.c:356-392 | reports a hang iff SchedTick.Start hangs, and otherwise leaves its state |
| SchedObject.Scheduler.ProcessCompletedTasks | scheduler.c:561-588 | leaves the snapshot ProcessCompleted |
| SchedObject.Scheduler.ProcessSkippedTasks | scheduler.c:787-820 | leaves the snapshot ProcessSkipped |
| SchedObject.Scheduler.SetAlgorithm | scheduler.c:397-400 | the algorithm becomes the one given |

## Left out

- Output: all `MESS_OUT_*` reporting calls in the scheduler and the task
  object, the file and console routing of messages_out.c, and `putstr`. A
  message the filter lets through is returned as text instead of being
  printed.
- The PC branch of messages_out.c: its own filter and toggles route to files.
  The model follows the embedded branch (lines 27-722), whose filter is the one
  the toggles drive. `decode_seconds` exists only in the PC branch, and its
  formatting is modelled from it.
- Timers and clocks: `CLK_start_timer` in `SCH_start`, device registers,
  interrupts and date handling.
- Terminal UI: menu printing, `process_input`, `load_test_case`,
  `update_algorithm`, `update_duration`, `loop_through_all_test_cases` and the
  serial line buffer. They are command dispatch and printing around the
  modelled parser.
- `TST_test` apart from one pass of its simulation loop (SchedTick.Tick). The
  mode switching, test loading and end-of-test reporting are left out.
- `TSK_start_of_test`, `TSK_end_of_test`, `TSK_task_report` and
  `TSK_task_results`: they only report.
- The task template table: task_data.h is not part of this model. Templates
  are a parameter, a sequence of constant-field records.
- Compiled-out code: `q_dump`, `q1_dump`, `task_params`, `dm_schedulable`,
  `schedule_d_star_algorithm`, and the empty RR and CYC handlers, which change
  nothing.
- The global test number that ADAP-7's fault at tick 906 is keyed on (test 57
  adds 5, test 60 adds 100): it is a parameter here (`testNum`). ADAP-6's
  fault at tick 906 adds 5 in every test and needs no such parameter.
- `get_numeric_input`'s `sizeof(line)` is the size of a pointer. It is a
  parameter (`pointerSize`).
- `UTL_string_copy` and `strtok`/`strcpy` buffer overruns: the model requires
  the destination to hold the copy.
- ListClients.CompareFileNames: it requires names whose lengths, taken as U8,
  differ or are at least 2. For two names of equal U8 length 0 or 1 (such as
  "a" and "b", or names of 256 or 257 characters) the source reads, and then
  writes, bytes before its local buffers (`name[name_length - 2]`), which a
  sequence cannot hold. ListClients.SameModule, ListClients.SameModuleCases and
  ListClients.SameModuleSymmetric carry the same requirement.
- Utils.Divide: its loop test is taken without the U32 wrap of the source. It
  agrees with the as-written Utils.DivideAsWritten only when the larger of
  dividend and divisor plus the divisor stays below 2^32. Beyond that the
  source loops forever or returns a wrong quotient (see Findings).
  Metrics.TaskUtility and TestReport.UtilityValue divide through DivideSpec,
  so they inherit the intended division on those inputs.
- Utils.DivideAsWritten: a pass budget (`fuel`) bounds the passes the model
  makes; a loop that has not stopped within it is reported as not stopped,
  and the lemmas above show inputs on which it never stops.
- Term.SecondNeverAfterFirst: it covers a first number of two or more
  characters. With a one-character start, position 5 lies past the line's
  NUL, in bytes of an earlier line that TRM_call's static buffer keeps; the
  stop then follows those bytes, as Term.Terminal.SetUpLoopRun states.
- SchedAdapt.Adap1Loop: the C loop never returns when the set stays overloaded
  and no candidate is left. The model returns `Hung` there instead of looping.
  SchedAdapt.Adap3Loop and SchedAdapt.Adap5Loop do the same.
- SchedObject.Scheduler.Insert: q2_insert's duplicate guard only catches a task
  adjacent to the insertion point. The model requires the task not to be
  queued, so the guard's error path is not reached.
- SchedObject.Scheduler.AddTask: it requires a slot that is on no queue and not
  running. The source does not check this; loading a queued slot would corrupt
  the lists.
- SchedObject.Scheduler.Q0Extract: it requires the task to be on the queue its
  state selects. The source's behaviour for a non-member, which splices through
  slot 0, is modelled only for q1_extract.
- Link values are slot indices 0..7. Every link the code stores is a task id
  below NUM_OF_TASKS.
- SchedObject.Scheduler.ScheduleAdap6 and SchedObject.Scheduler.ScheduleAdap7:
  a candidate of 0 doubles slot 0 and queues nothing (the corrected
  behaviour). The as-written q1_insert(0), which cuts the doubled queue, is
  proved separately; see Findings.

## Findings

| source | as written | input that shows it | evidently intended | confidence | as-written member | corrected member |
|---|---|---|---|---|---|---|
| utils.c:78-84 | `sum += denom`, `quotient++` and the loop test `(sum+denom) <= number` are all computed in U32, so the sum wraps | number = 0xFFFFFFFF with any non-zero divisor, or 0xFFFFFFF0 with divisor 0x20, never returns; number = 5 with divisor 0x80000000 returns quotient 2 and remainder 5 with no sanity error | stop once the next multiple would pass the dividend, computed without wrap | not executed | Utils.DivideAsWritten | Utils.Divide |
| scheduler.c:1227-1232 | when no removable or doublable task is left, ADAP-6 and ADAP-7 pass task 0 to q1_insert, which walks with slot 0's keys and links task 0 in | a non-empty doubled queue under ADAP-6, with utility above 100%, no removable task and slot 0 at its reset priority 0: the walk stops at once, the header's next link becomes 0, and t is no longer reachable from the queue | skip the insertion when there is no candidate | not executed | Queues.NullInsertEmptiesQueue | SchedAdapt.DoubleLowest |

// The test report counter table of test.c: one U32 value per report line,
// updated in place by index while a test case runs.

module TestReport {
  import opened CTypes
  import Utils

  /** `test_case_parm_index_type` (test.h:27-39), in declaration order. */
  datatype Counter = Duration | Preempts | Skips | Removals | PerDoubles
                   | DeadlineMissed | DeadlineMet | Value | Utility
  {
    function Index(): (i: nat)
      ensures i < TST_MAX_TST
    {
      match this
      case Duration => 0
      case Preempts => 1
      case Skips => 2
      case Removals => 3
      case PerDoubles => 4
      case DeadlineMissed => 5
      case DeadlineMet => 6
      case Value => 7
      case Utility => 8
    }
  }

  /** `TST_MAX_TST`: the number of report counters. */
  const TST_MAX_TST: nat := 9

  /** Every counter has its own slot in the table. */
  lemma CounterIndexInjective(a: Counter, b: Counter)
    ensures a.Index() == b.Index() <==> a == b
  {
  }

  /**
   * The achieved utility of a finished test: `Value * 100` (in U32) divided by
   * the test duration with UTL_divide. A zero duration gives 0; a product below
   * the duration still gives 1, because UTL_divide always runs its loop once.
   */
  function UtilityValue(value: u32, duration: u32): (u: u32)
    ensures duration == 0 ==> u == 0
    ensures 0 < duration <= Wrap32(value as int * 100) ==> u == Wrap32(value as int * 100) / duration
    ensures 0 < duration && Wrap32(value as int * 100) < duration ==> u == 1
  {
    Utils.DivideSpec(Wrap32(value as int * 100), duration, Utils.DivResult(0, 0)).quotient
  }

  /** The report values array (`test_case_report_values[].value`, test.c:53-60). */
  class Report {
    var values: array<u32>

    ghost predicate Valid()
      reads this
    {
      values.Length == TST_MAX_TST
    }

    /** TST_init: the table starts with every counter at 0. */
    constructor ()
      ensures Valid() && fresh(values)
      ensures forall i :: 0 <= i < TST_MAX_TST ==> values[i] == 0
    {
      values := new u32[TST_MAX_TST](_ => 0);
    }

    /** Current value of one counter. */
    function Get(c: Counter): u32
      requires Valid()
      reads this, values
    {
      values[c.Index()]
    }

    /** TST_incr_test_report_value: the selected counter goes up by one (U32), no other changes. */
    method Incr(c: Counter)
      requires Valid()
      modifies values
      ensures Valid()
      ensures values[c.Index()] == Wrap32(old(values[c.Index()]) as int + 1)
      ensures forall i :: 0 <= i < TST_MAX_TST && i != c.Index() ==> values[i] == old(values[i])
    {
      values[c.Index()] := Wrap32(values[c.Index()] as int + 1);
    }

    /** TST_add_test_report_value: the selected counter grows by `v` (U32), no other changes. */
    method Add(c: Counter, v: u32)
      requires Valid()
      modifies values
      ensures Valid()
      ensures values[c.Index()] == Wrap32(old(values[c.Index()]) as int + v)
      ensures forall i :: 0 <= i < TST_MAX_TST && i != c.Index() ==> values[i] == old(values[i])
    {
      values[c.Index()] := Wrap32(values[c.Index()] as int + v);
    }

    /** TST_set_test_report_value: the selected counter is overwritten, no other changes. */
    method Set(c: Counter, v: u32)
      requires Valid()
      modifies values
      ensures Valid()
      ensures values[c.Index()] == v
      ensures forall i :: 0 <= i < TST_MAX_TST && i != c.Index() ==> values[i] == old(values[i])
    {
      values[c.Index()] := v;
    }

    /** reset_report_values (also TST_soft_reset): every counter back to 0. */
    method ResetValues()
      requires Valid()
      modifies values
      ensures Valid()
      ensures forall i :: 0 <= i < TST_MAX_TST ==> values[i] == 0
    {
      var index := 0;
      while index < TST_MAX_TST
        invariant 0 <= index <= TST_MAX_TST
        invariant forall i :: 0 <= i < index ==> values[i] == 0
      {
        values[index] := 0;
        index := index + 1;
      }
    }

    /** calculate_utility_value: reads the table, divides with UTL_divide. */
    method CalculateUtilityValue() returns (u: u32)
      requires Valid()
      ensures u == UtilityValue(values[Value.Index()], values[Duration.Index()])
    {
      var div, _ := Utils.Divide(Wrap32(values[Value.Index()] as int * 100), values[Duration.Index()], Utils.DivResult(0, 0));
      u := div.quotient;
    }

    /** The utility step of TST_test_report: only the Utility counter changes. */
    method TestReport()
      requires Valid()
      modifies values
      ensures Valid()
      ensures values[Utility.Index()] == UtilityValue(old(values[Value.Index()]), old(values[Duration.Index()]))
      ensures forall i :: 0 <= i < TST_MAX_TST && i != Utility.Index() ==> values[i] == old(values[i])
    {
      var utility := CalculateUtilityValue();
      Set(Utility, utility);
    }
  }
}

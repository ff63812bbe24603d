/** Job and Task status: a condition list and two optional times. JobStatus and
    TaskStatus are declared separately in the API but have the same fields. */
module Statuses {
  import opened Options
  import opened Conditions

  /** Nanoseconds on the cluster's clock. */
  type Time = nat

  /** What a status holds, as a value. */
  datatype Status = Status(conditions: seq<Condition>, startTime: Option<Time>, completionTime: Option<Time>)

  const EMPTY := Status([], None, None)

  function With(st: Status, t: ConditionType, message: Option<string>): Status {
    st.(conditions := Set(st.conditions, t, True, message))
  }

  predicate Is(st: Status, t: ConditionType) {
    Has(st.conditions, t, True)
  }

  predicate Terminal(st: Status) {
    Is(st, Completed) || Is(st, Failed)
  }

  /** A status patch: the fields in which current differs from base are written
      over the stored status, each as a whole. StatusPatch shows that this is
      what the JSON merge patch between the two does. */
  function Patched(stored: Status, base: Status, current: Status): Status {
    Status(
      if current.conditions == base.conditions then stored.conditions else current.conditions,
      if current.startTime == base.startTime then stored.startTime else current.startTime,
      if current.completionTime == base.completionTime then stored.completionTime else current.completionTime)
  }
}

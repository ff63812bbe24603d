/** The names given to the Tasks of a Job: "<job>-task-<n>". */
module TaskNames {
  import opened Options

  function Digit(d: nat): char
    requires d < 10
  {
    "0123456789"[d]
  }

  /** A number as %d prints it. */
  function Decimal(n: nat): string {
    if n < 10 then [Digit(n)] else Decimal(n / 10) + [Digit(n % 10)]
  }

  function FormatTaskName(job: string, n: nat): string {
    job + "-task-" + Decimal(n)
  }

  /** The value of a string of decimal digits; characters that are not digits count as 0. */
  function Value(s: string): nat {
    if s == [] then 0
    else 10 * Value(s[..|s| - 1]) + (var c := s[|s| - 1]; if '0' <= c <= '9' then c as int - '0' as int else 0)
  }

  /** The position of the last dash. */
  function LastDash(s: string): Option<nat> {
    if s == [] then None
    else if s[|s| - 1] == '-' then Some(|s| - 1)
    else LastDash(s[..|s| - 1])
  }

  /** Reads a Task name back: the digits follow the last dash, and "-task" stands before it. */
  function ParseTaskName(s: string): Option<(string, nat)> {
    match LastDash(s)
    case None => None
    case Some(d) =>
      if 5 <= d < |s| && s[d - 5..d] == "-task" then Some((s[..d - 5], Value(s[d + 1..]))) else None
  }

  lemma {:induction false} DecimalValue(n: nat)
    ensures Value(Decimal(n)) == n
    ensures |Decimal(n)| > 0 && '-' !in Decimal(n)
  {
    if n < 10 {
      assert Value([Digit(n)]) == 10 * Value([]) + n;
    } else {
      DecimalValue(n / 10);
      var s := Decimal(n);
      assert s[..|s| - 1] == Decimal(n / 10);
    }
  }

  /** A number is written with digits only, the first of them not 0 unless it is the only one. */
  lemma {:induction false} DecimalDigits(n: nat)
    ensures |Decimal(n)| > 0 && forall i :: 0 <= i < |Decimal(n)| ==> '0' <= Decimal(n)[i] <= '9'
    ensures Decimal(n)[0] == '0' ==> |Decimal(n)| == 1
    ensures Decimal(n)[0] == '0' <==> n == 0
  {
    if n >= 10 {
      DecimalDigits(n / 10);
      assert Decimal(n)[0] == Decimal(n / 10)[0];
    }
  }

  lemma {:induction false} LastDashSplits(front: string, back: string)
    requires '-' !in back
    ensures LastDash(front + "-" + back) == Some(|front|)
  {
    var s := front + "-" + back;
    if back != [] {
      assert s[|s| - 1] == back[|back| - 1];
      assert s[..|s| - 1] == front + "-" + back[..|back| - 1];
      LastDashSplits(front, back[..|back| - 1]);
    }
  }

  /** Every Task name reads back as its Job and index, also when the Job's own
      name contains "-task-" and digits. */
  lemma ParseOfFormat(job: string, n: nat)
    ensures ParseTaskName(FormatTaskName(job, n)) == Some((job, n))
  {
    var s := FormatTaskName(job, n);
    DecimalValue(n);
    assert s == (job + "-task") + "-" + Decimal(n);
    LastDashSplits(job + "-task", Decimal(n));
    var d := |job| + 5;
    assert s[d - 5..d] == "-task" && s[..d - 5] == job && s[d + 1..] == Decimal(n);
  }

  /** Distinct (job, index) pairs have distinct Task names. */
  lemma FormatTaskNameInjective(job1: string, n1: nat, job2: string, n2: nat)
    requires FormatTaskName(job1, n1) == FormatTaskName(job2, n2)
    ensures job1 == job2 && n1 == n2
  {
    ParseOfFormat(job1, n1);
    ParseOfFormat(job2, n2);
  }
}

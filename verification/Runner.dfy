/** A runner's handling of one task. */
module Runner {
  import opened Utf8
  import opened Wire

  /** What one attempt met: the check's own result, which may carry any ticket,
      or the deadline first; and whether the clock was past the deadline when
      the attempt was over. */
  datatype Attempt = Delivered(result: Result, late: bool) | DeadlineFirst(late: bool)

  /** The retry loop. `attempts` holds what would happen on each attempt that
      the task allows; `used` says how many were made. */
  method Handle(task: Task, attempts: seq<Attempt>, timeoutDebug: Str, timeoutError: Str)
    returns (result: Result, used: nat)
    requires task.attempts <= |attempts|
    ensures result.ticket == task.ticket
    ensures used <= |attempts| && (used > 0 ==> used <= task.attempts)
    ensures forall i | 0 <= i < used - 1 :: !attempts[i].late && (attempts[i].Delivered? ==> !attempts[i].result.status)
    ensures used < task.attempts ==>
            used > 0 && (attempts[used - 1].late || (attempts[used - 1].Delivered? && attempts[used - 1].result.status))
    ensures result.status <==> exists i | 0 <= i < used :: attempts[i].Delivered? && attempts[i].result.status
    ensures forall i | 0 <= i < used && attempts[i].Delivered? && (forall j | i < j < used :: attempts[j].DeadlineFirst?) ::
              result.points == attempts[i].result.points
    ensures (forall i | 0 <= i < used :: attempts[i].DeadlineFirst?) ==> result.points == 0
    ensures used > 0 && attempts[used - 1].DeadlineFirst? ==>
            result.error == timeoutError && result.debug == timeoutDebug
    ensures used > 0 && attempts[used - 1].Delivered? ==>
            result.error == attempts[used - 1].result.error && result.debug == attempts[used - 1].result.debug
  {
    result := Result(task.ticket, false, 0, [], []);
    used := 0;
    while used < task.attempts
      invariant used <= |attempts| && (used > 0 ==> used <= task.attempts)
      invariant result.ticket == task.ticket && !result.status
      invariant forall i | 0 <= i < used :: !attempts[i].late && (attempts[i].Delivered? ==> !attempts[i].result.status)
      invariant forall i | 0 <= i < used && attempts[i].Delivered? && (forall j | i < j < used :: attempts[j].DeadlineFirst?) ::
                  result.points == attempts[i].result.points
      invariant (forall i | 0 <= i < used :: attempts[i].DeadlineFirst?) ==> result.points == 0
      invariant used > 0 && attempts[used - 1].DeadlineFirst? ==>
                result.error == timeoutError && result.debug == timeoutDebug
      invariant used > 0 && attempts[used - 1].Delivered? ==>
                result.error == attempts[used - 1].result.error && result.debug == attempts[used - 1].result.debug
    {
      var a := attempts[used];
      match a {
        case Delivered(r, _) =>
          result := r.(ticket := task.ticket);
        case DeadlineFirst(_) =>
          result := result.(status := false, debug := timeoutDebug, error := timeoutError);
      }
      used := used + 1;
      if result.status || a.late {
        break;
      }
    }
  }
}

/** Build status values and the predicates every other module uses. */
module Models {

  datatype Option<+T> = None | Some(value: T)

  /** The status column of a build, in the order of its integer codes 0 to 7. */
  datatype BuildStatus =
    | Unknown
    | NotStarted
    | Skipped
    | Running
    | Failure
    | Success
    | CancelRequested
    | Cancelled

  /** The four statuses a build ends in. */
  const ENDS := {Success, Failure, Skipped, Cancelled}

  predicate HasEnded(s: BuildStatus) {
    s in ENDS
  }

  predicate TerminalState(s: BuildStatus) {
    s.Success? || s.Failure? || s.Skipped? || s.Cancelled?
  }

  /** Events may be added to, and listened for on, a build that has not ended. */
  predicate EventListenable(s: BuildStatus) {
    !TerminalState(s)
  }

  /** The integer stored in the database and sent in notifications. */
  function Code(s: BuildStatus): int {
    match s
    case Unknown => 0
    case NotStarted => 1
    case Skipped => 2
    case Running => 3
    case Failure => 4
    case Success => 5
    case CancelRequested => 6
    case Cancelled => 7
  }

  /** The status an integer stands for; every other integer is as good as unknown. */
  function FromCode(n: int): BuildStatus {
    if n == 1 then NotStarted
    else if n == 2 then Skipped
    else if n == 3 then Running
    else if n == 4 then Failure
    else if n == 5 then Success
    else if n == 6 then CancelRequested
    else if n == 7 then Cancelled
    else Unknown
  }

  lemma {:induction false} TerminalExactly(s: BuildStatus)
    ensures TerminalState(s) <==> HasEnded(s)
    ensures EventListenable(s) <==> !HasEnded(s)
  {
  }
}

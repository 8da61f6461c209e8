/** Cancellation requests that CancelBuild has granted and the runner never hears of: exactly which they
    are, and where they are lost. */
module LostCancellations {
  import opened Models
  import opened Lifecycle
  import opened LifecycleSafety

  // ---------- Can the runner still be told? ----------

  /** The attempt will look at the cancellation flag yet. */
  predicate BeforeVerdict(pc: RunnerPc) {
    pc.Working? || pc.Skipping? || pc.Building? || pc.Finishing? || pc.Failing?
  }

  /** Some CancelBuild call is about to write and notify. */
  ghost predicate SomeChecked(s: State) {
    exists c :: c in s.cancels && s.cancels[c].Checked?
  }

  /** The goroutine knows of a cancellation, or may still learn of one. */
  ghost predicate MayLearn(s: State) {
    match s.runner.listener
    case Spawned | GotCancel | ContextDone | FlagSet => true
    case SawRunning => SomeChecked(s)
    case Listening(pending) => pending > 0 || SomeChecked(s)
    case _ => false
  }

  /** The attempt has decided on Cancelled, or its goroutine may still make it. */
  ghost predicate CanBeTold(s: State) {
    s.runner.pc == Concluding(true) || (BeforeVerdict(s.runner.pc) && MayLearn(s))
  }

  /** A build that no longer runs and whose attempt cannot be told. */
  ghost predicate CancelMissed(s: State) {
    s.handedOff && !s.row.status.Running? && !CanBeTold(s)
  }

  // ---------- If not, it never will be ----------

  lemma {:induction false} StaysMissed(s: State, l: Label)
    requires Inv(s) && CancelMissed(s) && Enabled(s, l)
    ensures CancelMissed(Apply(s, l)) && Written(l) != Some(Cancelled)
  {
    hide NextAdds, NextServer;
  }

  /** A missed cancellation stays missed. */
  lemma {:induction false} MissedForever(ls: seq<Label>, ms: seq<Label>)
    requires IsRun(ls + ms) && CancelMissed(After(ls))
    ensures CancelMissed(After(ls + ms))
  {
    hide Apply, Enabled, CancelMissed;
    if ms == [] {
      assert ls + ms == ls;
    } else {
      assert Front(ls + ms) == ls + Front(ms) && Last(ls + ms) == Last(ms);
      MissedForever(ls, Front(ms));
      RunsKeepInv(ls + Front(ms));
      StaysMissed(After(ls + Front(ms)), Last(ms));
    }
  }

  /** No later call repeats it, and the build is never marked as cancelled. */
  lemma {:induction false} NeverCancelled(ls: seq<Label>, ms: seq<Label>)
    requires ms != [] && IsRun(ls + ms) && CancelMissed(After(ls))
    ensures Written(Last(ls + ms)) != Some(Cancelled)
  {
    hide Apply, Enabled, CancelMissed, Written;
    assert Front(ls + ms) == ls + Front(ms) && Last(ls + ms) == Last(ms);
    MissedForever(ls, Front(ms));
    RunsKeepInv(ls + Front(ms));
    StaysMissed(After(ls + Front(ms)), Last(ms));
  }

  // ---------- If so, it still may be ----------

  /** A step towards the Cancelled write; c is a call past its check, if one is needed. */
  function Towards(s: State, c: nat): Label {
    if s.runner.pc.Concluding? then FinalWrite(true, Acked)
    else match s.runner.listener
      case Spawned => ListenerRead(true)
      case SawRunning => ListenerListen(true)
      case Listening(pending) => if pending > 0 then ListenerWoken else CancelWrite(c, Acked)
      case GotCancel => ListenerCancelsContext
      case ContextDone => ListenerSetsFlag
      case _ =>
        match s.runner.pc
        case Working => WorkFailed
        case Skipping => SkippedWrite(Refused)
        case Building => BuildReturned(false)
        case Finishing => SuccessWrite(Refused)
        case _ => FlagRead
  }

  /** How many of these steps it takes at most. */
  function Distance(s: State): nat {
    if s.runner.pc.Concluding? then 0
    else (if s.runner.pc.Failing? then 1 else 2) + ListenerDistance(s.runner.listener)
  }

  function ListenerDistance(l: ListenerPc): nat {
    match l
    case SawRunning => 5
    case Listening(pending) => if pending > 0 then 3 else 4
    case Spawned => 3
    case GotCancel => 2
    case ContextDone => 1
    case _ => 0
  }

  ghost predicate Hopeful(s: State) {
    s.row.status.CancelRequested? && CanBeTold(s)
  }

  /** The call that has to write, if the goroutine has not been notified. */
  ghost predicate Helps(s: State, c: nat) {
    s.runner.listener == Listening(0) && !s.runner.pc.Concluding? ==> c in s.cancels && s.cancels[c].Checked?
  }

  lemma {:induction false} SomeHelp(s: State) returns (c: nat)
    requires Hopeful(s)
    ensures Helps(s, c)
  {
    c := 0;
    if s.runner.listener == Listening(0) && !s.runner.pc.Concluding? {
      c :| c in s.cancels && s.cancels[c].Checked?;
    }
  }

  lemma {:induction false} TowardsStep(s: State, c: nat)
    requires Hopeful(s) && Helps(s, c)
    ensures Enabled(s, Towards(s, c))
    ensures var t := Apply(s, Towards(s, c));
            Written(Towards(s, c)) == Some(Cancelled) || (Hopeful(t) && Distance(t) < Distance(s))
  {
    hide NextAdds, NextServer, NextPods;
  }

  /** A continuation that ends with the Cancelled write. */
  lemma {:induction false} WayToCancelled(ls: seq<Label>) returns (ms: seq<Label>)
    requires IsRun(ls) && Hopeful(After(ls))
    ensures ms != [] && IsRun(ls + ms) && Written(Last(ls + ms)) == Some(Cancelled)
    decreases Distance(After(ls))
  {
    hide Apply, Enabled, Hopeful, Helps, Towards, IsRun, After, Written;
    var c := SomeHelp(After(ls));
    var l := Towards(After(ls), c);
    TowardsStep(After(ls), c);
    Extend(ls, l);
    if Written(l) == Some(Cancelled) {
      ms := [l];
    } else {
      var rest := WayToCancelled(ls + [l]);
      ms := [l] + rest;
      assert ls + ms == ls + [l] + rest;
    }
  }

  /** A granted cancellation can still lead to Cancelled exactly when the attempt has already decided
      so, or has yet to look at the flag while its goroutine has not read the row, has been told, or
      waits and some further call is about to write. */
  lemma {:induction false} CancelledExactlyWhenTold(ls: seq<Label>)
    requires IsRun(ls) && After(ls).row.status.CancelRequested?
    ensures CanBeTold(After(ls)) <==>
            exists ms :: ms != [] && IsRun(ls + ms) && Written(Last(ls + ms)) == Some(Cancelled)
  {
    hide CanBeTold, IsRun;
    RunsKeepInv(ls);
    if CanBeTold(After(ls)) {
      var ms := WayToCancelled(ls);
    } else {
      forall ms | ms != [] && IsRun(ls + ms) ensures Written(Last(ls + ms)) != Some(Cancelled) {
        NeverCancelled(ls, ms);
      }
    }
  }

  // ---------- Where a cancellation is lost ----------

  function CancelCommits(ls: seq<Label>): nat {
    if ls == [] then 0 else CancelCommits(Front(ls)) + if CancelCommit(Last(ls)) then 1 else 0
  }

  lemma {:induction false} ListenStep(s: State, l: Label)
    requires Enabled(s, l) && l.ListenerListen? && Apply(s, l).runner.listener.Listening?
    ensures l == ListenerListen(true) && s.runner.listener.SawRunning?
    ensures Apply(s, l).runner.listener == Listening(0)
  {
  }

  lemma {:induction false} WaitStep(s: State, l: Label)
    requires Enabled(s, l) && Inv(s) && !l.ListenerListen? && Apply(s, l).runner.listener.Listening?
    ensures s.runner.listener.Listening?
    ensures Apply(s, l).runner.listener.pending == s.runner.listener.pending + if CancelCommit(l) then 1 else 0
  {
  }

  /** Where the present goroutine read the row (r) and where it issued its LISTEN (q). */
  lemma {:induction false} OriginOfListening(ls: seq<Label>) returns (r: nat, q: nat)
    requires IsRun(ls) && After(ls).runner.listener.Listening?
    ensures r < q < |ls| && ls[r] == ListenerRead(true) && ls[q] == ListenerListen(true)
    ensures StatusAt(ls, r).Running?
    ensures After(ls).runner.listener.pending == CancelCommits(ls[q + 1..])
  {
    hide Apply, Enabled, Inv, CancelCommit;
    if Last(ls).ListenerListen? {
      q := |ls| - 1;
      assert ls[q + 1..] == [];
      ListenStep(After(Front(ls)), Last(ls));
      r := OriginOfSawRunning(Front(ls));
      assert Front(ls)[..r] == ls[..r];
    } else {
      RunsKeepInv(Front(ls));
      WaitStep(After(Front(ls)), Last(ls));
      r, q := OriginOfListening(Front(ls));
      assert Front(ls)[..r] == ls[..r];
      assert Front(ls[q + 1..]) == Front(ls)[q + 1..] && Last(ls[q + 1..]) == Last(ls);
    }
  }

  lemma {:induction false} OriginOfSawRunning(ls: seq<Label>) returns (r: nat)
    requires IsRun(ls) && After(ls).runner.listener.SawRunning?
    ensures r < |ls| && ls[r] == ListenerRead(true) && StatusAt(ls, r).Running?
  {
    if Last(ls).ListenerRead? {
      r := |ls| - 1;
    } else {
      RunsKeepInv(Front(ls));
      r := OriginOfSawRunning(Front(ls));
      assert Front(ls)[..r] == ls[..r];
    }
  }

  lemma {:induction false} CancelCommitsCount(ls: seq<Label>, k: nat)
    requires k < |ls| && CancelCommit(ls[k])
    ensures CancelCommits(ls) > 0
  {
    if k < |ls| - 1 {
      CancelCommitsCount(Front(ls), k);
    }
  }

  /** While the status is Running no cancellation has committed. */
  lemma {:induction false} RunningMeansNotCancelled(ls: seq<Label>, k: nat)
    requires IsRun(ls) && After(ls).row.status.Running? && k < |ls|
    ensures !CancelCommit(ls[k])
  {
    if CancelCommit(ls[k]) {
      var h := LastWrite(ls);
      StepOfRun(ls, k);
      RunsKeepInv(ls[..k]);
      assert After(ls[..k]).handedOff;
      StepOfRun(ls, h);
      StaysHandedOff(ls, k, h);
      RunsKeepInv(ls[..h]);
      assert false;
    }
  }

  /** A committed CancelBuild of which the waiting goroutine knows nothing fell between the
      goroutine's read of the row and its LISTEN. */
  lemma {:induction false} CancelLostOnlyInWindow(ls: seq<Label>, k: nat)
    requires IsRun(ls) && After(ls).runner.listener == Listening(0)
    requires k < |ls| && CancelCommit(ls[k])
    ensures exists r: nat, q: nat ::
              r < k < q < |ls| && ls[r] == ListenerRead(true) && ls[q] == ListenerListen(true)
  {
    hide Apply, Enabled;
    var r, q := OriginOfListening(ls);
    if k > q {
      CancelCommitsCount(ls[q + 1..], k - (q + 1));
    }
    LostAfterRead(ls, r, k);
  }

  /** The goroutine gave up at step n: an error, or a status it does not expect. */
  predicate GivesUp(ls: seq<Label>, n: nat)
    requires n < |ls|
  {
    ls[n].ListenerFailed? || ls[n] == ListenerListen(false) ||
    (ls[n].ListenerRead? && (ls[n].ok ==> !Expected(StatusAt(ls, n))))
  }

  predicate Expected(s: BuildStatus) {
    s.Running? || s.CancelRequested? || s.Cancelled?
  }

  lemma {:induction false} OriginOfStopped(ls: seq<Label>) returns (n: nat)
    requires IsRun(ls) && After(ls).runner.listener.Stopped?
    ensures n < |ls| && GivesUp(ls, n)
  {
    hide NextCancels, NextAdds, NextServer, Written, Commit;
    assert ls[..|ls| - 1] == Front(ls);
    if Last(ls).ListenerFailed? || Last(ls).ListenerListen? || Last(ls).ListenerRead? {
      n := |ls| - 1;
    } else {
      n := OriginOfStopped(Front(ls));
      assert Front(ls)[..n] == ls[..n];
    }
  }

  /** The commit, at step k, came after the goroutine's read of the row and before its LISTEN, which it
      may have yet to issue. */
  ghost predicate InWindow(ls: seq<Label>, k: nat) {
    exists r: nat ::
      && r < k < |ls| && ls[r] == ListenerRead(true) && StatusAt(ls, r).Running?
      && (After(ls).runner.listener.SawRunning? || exists q: nat :: k < q < |ls| && ls[q] == ListenerListen(true))
  }

  /** A granted cancellation that can no longer take effect was lost in one of three places: the attempt
      was over or had read the flag, the goroutine had given up, or the commit fell into the window
      between the goroutine's read and its LISTEN. */
  lemma {:induction false} WhereACancelIsLost(ls: seq<Label>) returns (k: nat)
    requires IsRun(ls) && After(ls).row.status.CancelRequested? && !CanBeTold(After(ls))
    ensures k < |ls| && CancelCommit(ls[k]) && forall n :: k < n < |ls| ==> Written(ls[n]).None?
    ensures !BeforeVerdict(After(ls).runner.pc)
         || (exists n: nat :: n < |ls| && GivesUp(ls, n))
         || InWindow(ls, k)
  {
    hide Apply, Enabled, IsRun, GivesUp;
    k := LastWrite(ls);
    RunsKeepInv(ls);
    match After(ls).runner.listener {
      case Stopped =>
        var n := OriginOfStopped(ls);
      case Listening(_) =>
        var r, q := OriginOfListening(ls);
        LostAfterRead(ls, r, k);
        if k > q {
          CancelCommitsCount(ls[q + 1..], k - (q + 1));
        }
      case SawRunning =>
        var r := OriginOfSawRunning(ls);
        LostAfterRead(ls, r, k);
      case _ =>
    }
  }

  lemma {:induction false} LostAfterRead(ls: seq<Label>, r: nat, k: nat)
    requires IsRun(ls) && r < |ls| && k < |ls| && CancelCommit(ls[k])
    requires ls[r] == ListenerRead(true) && StatusAt(ls, r).Running?
    ensures r < k
  {
    if k < r {
      PrefixIsRun(ls, r);
      RunningMeansNotCancelled(ls[..r], k);
    }
  }

  /** The window exists: CancelBuild reports success, and the runner is never told. */
  lemma {:induction false} CancelCanBeMissed() returns (ls: seq<Label>, s: State)
    ensures Leads(ls, s) && CancelMissed(s) && s.runner == Runner(Working, Listening(0))
    ensures s.row.status.CancelRequested? && s.cancels == map[0 := CancelReturned(true)]
  {
    hide Leads;
    ls, s := CancelPending();
    ls, s := Took(ls, s, ListenerRead(true));
    ls, s := Took(ls, s, CancelWrite(0, Acked));
    ls, s := Took(ls, s, ListenerListen(true));
  }

  /** And so does the other way: the goroutine's read fails, and nothing in the run ever listens. */
  lemma {:induction false} CancelCanMeetNobody() returns (ls: seq<Label>, s: State)
    ensures Leads(ls, s) && CancelMissed(s) && s.runner == Runner(Working, Stopped)
    ensures s.row.status.CancelRequested? && s.cancels == map[0 := CancelReturned(true)]
    ensures forall n :: 0 <= n < |ls| ==> !ls[n].ListenerListen?
  {
    hide Leads;
    ls, s := CancelPending();
    ls, s := Took(ls, s, ListenerRead(false));
    ls, s := Took(ls, s, CancelWrite(0, Acked));
  }
}
